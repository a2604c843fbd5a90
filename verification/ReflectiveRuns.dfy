// What every run of the reflection loop keeps, and what is true when it ends.
module ReflectiveRuns {
  import opened Wrappers
  import opened Templates
  import opened Topo
  import opened Plans
  import opened Reflective
  import opened Execution
  import opened Outcomes
  import TaskGraph

  // ---------------------------------------------------------------------------
  // Runs as sequences of rounds
  // ---------------------------------------------------------------------------

  /** The state after `r` rounds, each on the step picked before it. */
  function After(deps: Explicit, ids: seq<Id>, w: World, s: State, r: nat): (t: State)
    requires Consistent(deps, ids, s)
    ensures Consistent(deps, ids, t)
  {
    if r == 0 then s
    else
      var before := After(deps, ids, w, s, r - 1);
      match Pick(deps, ids, before.recs)
      case None => before
      case Some(i) =>
        RoundKeepsSteps(deps, ids, before, w, r, i);
        Round(before, w, r, i)
  }

  /** What the ending `e` of a loop started after `used` rounds says about the run. */
  ghost predicate Explains(deps: Explicit, ids: seq<Id>, w: World, budget: int, s: State, used: nat, e: Ending)
    requires Consistent(deps, ids, s)
  {
    && used <= e.used && (e.used <= budget || e.used == 0)
    && e.state == After(deps, ids, w, s, e.used)
    && (forall r :: used <= r < e.used ==> Pick(deps, ids, After(deps, ids, w, s, r).recs).Some?)
    && (forall r :: used < r < e.used ==> AdviceOf(w, r).action != Abort)
    && (e.exit == BudgetSpent ==> e.used == if budget < 0 then 0 else budget)
    && (e.exit == NothingToRepair ==> Pick(deps, ids, e.state.recs).None?)
    && (e.exit == Aborted <==> e.used > used && AdviceOf(w, e.used).action == Abort)
  }

  lemma {:induction false} LoopIsAfter(deps: Explicit, ids: seq<Id>, w: World, budget: int, s: State, used: nat)
    requires Consistent(deps, ids, s) && (used <= budget || used == 0)
    ensures Explains(deps, ids, w, budget, s, used, Loop(deps, ids, w, budget, After(deps, ids, w, s, used), used))
    decreases budget - used
  {
    hide Loop, Consistent, AdviceOf, Pick, After;
    var t := After(deps, ids, w, s, used);
    LoopTurn(deps, ids, w, budget, s, used);
    if used < budget && Pick(deps, ids, t.recs).Some? && AdviceOf(w, used + 1).action != Abort {
      LoopIsAfter(deps, ids, w, budget, s, used + 1);
    }
  }

  /** One turn of the loop. */
  lemma LoopTurn(deps: Explicit, ids: seq<Id>, w: World, budget: int, s: State, used: nat)
    requires Consistent(deps, ids, s)
    ensures var t := After(deps, ids, w, s, used);
            Loop(deps, ids, w, budget, t, used)
            == if used >= budget then Ending(t, used, BudgetSpent)
               else if Pick(deps, ids, t.recs).None? then Ending(t, used, NothingToRepair)
               else if AdviceOf(w, used + 1).action == Abort then Ending(After(deps, ids, w, s, used + 1), used + 1, Aborted)
               else Loop(deps, ids, w, budget, After(deps, ids, w, s, used + 1), used + 1)
  {
    hide Round, AdviceOf, Pick, Consistent;
  }

  /** When the loop ends, no step is failed, or the budget is used up, or the last
      advice was to abort. It never takes more rounds than the budget allows. */
  lemma EndOfRun(deps: Explicit, ids: seq<Id>, order: seq<Id>, w: World, budget: int, s: State)
    requires Consistent(deps, ids, s) && OrdersExplicit(deps, order)
    ensures var e := Loop(deps, ids, w, budget, s, 0);
            && Consistent(deps, ids, e.state) && 0 <= e.used <= (if budget < 0 then 0 else budget)
            && (e.exit == NothingToRepair ==> forall i :: i in deps ==> e.state.recs[i].status != Failed)
            && (e.exit == BudgetSpent ==> e.used == if budget < 0 then 0 else budget)
            && (e.exit == Aborted ==> e.used > 0 && AdviceOf(w, e.used).action == Abort)
  {
    hide Loop, Pick, Round;
    assert After(deps, ids, w, s, 0) == s;
    LoopIsAfter(deps, ids, w, budget, s, 0);
    var e := Loop(deps, ids, w, budget, s, 0);
    if e.exit == NothingToRepair {
      FailureIsRepairable(deps, ids, order, e.state.recs);
    }
  }

  /** `i` is the first step in plan order that failed while none of the steps it
      declares to depend on has. */
  ghost predicate Chosen(deps: Explicit, ids: seq<Id>, recs: map<Id, Rec>, i: Id) {
    exists n :: 0 <= n < |ids| && ids[n] == i && Repairable(deps, recs, i)
      && forall m :: 0 <= m < n ==> !Repairable(deps, recs, ids[m])
  }

  /** Round `r` leads from `b` to `a` and is on the chosen step. */
  ghost predicate ChosenRound(deps: Explicit, ids: seq<Id>, w: World, b: State, a: State, r: int) {
    exists i :: Chosen(deps, ids, b.recs, i) && RoundLeaves(b, a, w, r, i)
  }

  /** The states a run of the loop goes through, one more than it has rounds: each
      round is on the chosen step, and only the last one may be told to abort. */
  ghost predicate IsTrace(deps: Explicit, ids: seq<Id>, w: World, used: nat, trace: seq<State>) {
    && |trace| == used + 1
    && (forall r :: 1 <= r <= used ==> ChosenRound(deps, ids, w, trace[r - 1], trace[r], r))
    && (forall r :: 1 <= r < used ==> w.advise(r).Ok? && w.advise(r).value.action != Abort)
  }

  lemma {:induction false} PickIsChosen(deps: Explicit, ids: seq<Id>, recs: map<Id, Rec>)
    ensures Pick(deps, ids, recs).Some? ==> Chosen(deps, ids, recs, Pick(deps, ids, recs).value)
  {
    hide Repairable;
    if ids != [] && Pick(deps, ids, recs).Some? && !Repairable(deps, recs, ids[0]) {
      var i := Pick(deps, ids, recs).value;
      PickIsChosen(deps, ids[1..], recs);
      var n :| 0 <= n < |ids[1..]| && ids[1..][n] == i && Repairable(deps, recs, i)
        && forall m :: 0 <= m < n ==> !Repairable(deps, recs, ids[1..][m]);
      forall m | 0 <= m < n + 1 ensures !Repairable(deps, recs, ids[m]) {
        if m > 0 {
          assert ids[m] == ids[1..][m - 1];
        }
      }
      assert ids[n + 1] == i;
    } else if ids != [] && Repairable(deps, recs, ids[0]) {
      assert ids[0] == Pick(deps, ids, recs).value;
    }
  }

  /** The states after 0, 1, ... rounds, in the order of the rounds. */
  ghost function States(deps: Explicit, ids: seq<Id>, w: World, s: State, used: nat): (trace: seq<State>)
    requires Consistent(deps, ids, s)
    ensures |trace| == used + 1 && forall r :: 0 <= r <= used ==> trace[r] == After(deps, ids, w, s, r)
  {
    seq(used + 1, r requires 0 <= r <= used => After(deps, ids, w, s, r))
  }

  /** Every run of the loop is a trace from its first state to its last. */
  lemma LoopIsTrace(deps: Explicit, ids: seq<Id>, w: World, budget: int, s: State)
    requires Consistent(deps, ids, s)
    ensures var e := Loop(deps, ids, w, budget, s, 0);
            && e.used >= 0
            && var trace := States(deps, ids, w, s, e.used);
               IsTrace(deps, ids, w, e.used, trace) && trace[0] == s && trace[e.used] == e.state
  {
    hide Loop, After, Pick, Consistent, AdviceOf, RoundLeaves, Chosen, States;
    AfterNone(deps, ids, w, s);
    LoopIsAfter(deps, ids, w, budget, s, 0);
    var e := Loop(deps, ids, w, budget, s, 0);
    var trace := States(deps, ids, w, s, e.used);
    forall r | 1 <= r <= e.used
      ensures ChosenRound(deps, ids, w, trace[r - 1], trace[r], r)
    {
      var i := Pick(deps, ids, trace[r - 1].recs).value;
      RoundTouchesOne(deps, ids, w, s, r);
      PickIsChosen(deps, ids, trace[r - 1].recs);
    }
    forall r | 1 <= r < e.used ensures w.advise(r).Ok? && w.advise(r).value.action != Abort {
      NoAbort(w, r);
    }
  }

  lemma NoAbort(w: World, r: int)
    requires AdviceOf(w, r).action != Abort
    ensures w.advise(r).Ok? && w.advise(r).value.action != Abort
  {
  }

  /** The effect of a round: nothing but step `i` is written, it gets the
      reflection, and it is run again exactly on retry and replace. */
  lemma RoundEffect(deps: Explicit, ids: seq<Id>, b: State, w: World, r: int, i: Id)
    requires Consistent(deps, ids, b) && i in deps
    ensures var a := Round(b, w, r, i);
            && Consistent(deps, ids, a)
            && a.history == b.history[i := b.history[i] + [Reflection(AdviceOf(w, r), r)]]
            && a.recs == b.recs[i := a.recs[i]] && a.setup == b.setup[i := a.setup[i]]
            && (a.calls == b.calls <==> AdviceOf(w, r).action in {Skip, Abort})
            && (a.calls == b.calls || exists c :: a.calls == b.calls + [c] && c.round == r && c.step == i)
  {
    hide Adjust, Resolve, Rerun, AdviceOf, SameKeys;
    RoundKeepsSteps(deps, ids, b, w, r, i);
    assert b.setup[i := b.setup[i]] == b.setup;
  }

  /** In each round exactly one step is written: a failed one with no failed
      explicit dependency, which gets the reflection of that round. */
  lemma RoundTouchesOne(deps: Explicit, ids: seq<Id>, w: World, s: State, r: nat)
    requires Consistent(deps, ids, s) && r >= 1
    requires Pick(deps, ids, After(deps, ids, w, s, r - 1).recs).Some?
    ensures var b, a := After(deps, ids, w, s, r - 1), After(deps, ids, w, s, r);
            var i := Pick(deps, ids, b.recs).value;
            && i in deps && Repairable(deps, b.recs, i)
            && a.history == b.history[i := b.history[i] + [Reflection(AdviceOf(w, r), r)]]
            && a.recs == b.recs[i := a.recs[i]] && a.setup == b.setup[i := a.setup[i]]
            && (a.calls == b.calls <==> AdviceOf(w, r).action in {Skip, Abort})
            && (a.calls == b.calls || exists c :: a.calls == b.calls + [c] && c.round == r && c.step == i)
            && RoundLeaves(b, a, w, r, i)
  {
    hide RoundLeaves;
    var b := After(deps, ids, w, s, r - 1);
    var i := Pick(deps, ids, b.recs).value;
    RoundEffect(deps, ids, b, w, r, i);
    RoundIsLeaving(b, w, r, i);
    hide Round, AdviceOf;
    assert After(deps, ids, w, s, r) == Round(b, w, r, i);
  }

  /** Done and skipped steps never change again, in any run. */
  lemma {:induction false} SettledStays(deps: Explicit, ids: seq<Id>, w: World, s: State, r: nat, i: Id)
    requires Consistent(deps, ids, s) && i in deps && Settled(s.recs[i].status)
    ensures Kept(deps, s, After(deps, ids, w, s, r), i)
  {
    hide Pick, Consistent, After, AdviceOf;
    if r > 0 {
      SettledStays(deps, ids, w, s, r - 1, i);
      RoundKeepsSettled(deps, ids, w, s, r, i);
    } else {
      AfterNone(deps, ids, w, s);
    }
  }

  lemma AfterNone(deps: Explicit, ids: seq<Id>, w: World, s: State)
    requires Consistent(deps, ids, s)
    ensures After(deps, ids, w, s, 0) == s && forall i :: i in deps ==> Kept(deps, s, s, i)
  {
  }

  ghost predicate Kept(deps: Explicit, s: State, t: State, i: Id) {
    && i in s.recs && i in s.setup && i in s.history && i in t.recs && i in t.setup && i in t.history
    && t.recs[i] == s.recs[i] && t.setup[i] == s.setup[i] && t.history[i] == s.history[i]
  }

  lemma RoundKeepsSettled(deps: Explicit, ids: seq<Id>, w: World, s: State, r: nat, i: Id)
    requires Consistent(deps, ids, s) && r >= 1 && i in deps && i in After(deps, ids, w, s, r - 1).recs
    requires Settled(After(deps, ids, w, s, r - 1).recs[i].status)
    ensures Kept(deps, After(deps, ids, w, s, r - 1), After(deps, ids, w, s, r), i)
  {
    hide Pick, Round, AdviceOf, RoundLeaves;
    var pick := Pick(deps, ids, After(deps, ids, w, s, r - 1).recs);
    if pick.Some? {
      RoundTouchesOne(deps, ids, w, s, r);
    }
  }

  // ---------------------------------------------------------------------------
  // The recorded rounds
  // ---------------------------------------------------------------------------

  /** Reflection `k` of step `i` was made in round `r`. */
  ghost predicate Noted(history: map<Id, seq<Reflection>>, i: Id, k: int, r: int) {
    i in history && 0 <= k < |history[i]| && history[i][k].round == r
  }

  ghost predicate Recorded(history: map<Id, seq<Reflection>>, r: int) {
    exists i, k :: Noted(history, i, k, r)
  }

  /** The rounds in the histories are exactly 1 to `used`, each once. */
  ghost predicate RoundsRecorded(history: map<Id, seq<Reflection>>, used: nat) {
    && (forall i, k, r :: Noted(history, i, k, r) ==> 1 <= r <= used)
    && (forall r :: 1 <= r <= used ==> Recorded(history, r))
    && (forall i, k, j, m, r :: Noted(history, i, k, r) && Noted(history, j, m, r) ==> i == j && k == m)
  }

  lemma NotingExtends(history: map<Id, seq<Reflection>>, history': map<Id, seq<Reflection>>, i: Id, x: Reflection, used: nat)
    requires RoundsRecorded(history, used) && i in history && x.round == used + 1
    requires history' == history[i := history[i] + [x]]
    ensures RoundsRecorded(history', used + 1)
  {
    forall j, k, r | Noted(history', j, k, r)
      ensures Noted(history, j, k, r) || (j == i && k == |history[i]| && r == used + 1)
    {
    }
    forall r | 1 <= r <= used + 1 ensures Recorded(history', r) {
      if r == used + 1 {
        assert Noted(history', i, |history[i]|, r);
      } else {
        assert Recorded(history, r);
        var j, k :| Noted(history, j, k, r);
        assert Noted(history', j, k, r);
      }
    }
  }

  /** After a run the histories hold exactly its rounds. */
  lemma {:induction false} RunRecordsRounds(deps: Explicit, ids: seq<Id>, w: World, s: State, used: nat)
    requires Consistent(deps, ids, s) && forall i :: i in deps ==> s.history[i] == []
    requires forall r :: 0 <= r < used ==> Pick(deps, ids, After(deps, ids, w, s, r).recs).Some?
    ensures RoundsRecorded(After(deps, ids, w, s, used).history, used)
  {
    hide Pick, Round, RoundsRecorded, AdviceOf, After, RoundLeaves;
    if used == 0 {
      AfterNone(deps, ids, w, s);
      NothingRecorded(s.history);
    } else {
      RunRecordsRounds(deps, ids, w, s, used - 1);
      var before := After(deps, ids, w, s, used - 1);
      RoundTouchesOne(deps, ids, w, s, used);
      var i := Pick(deps, ids, before.recs).value;
      assert i in before.history;
      NotingExtends(before.history, After(deps, ids, w, s, used).history, i, Reflection(AdviceOf(w, used), used), used - 1);
    }
  }

  lemma NothingRecorded(history: map<Id, seq<Reflection>>)
    requires forall i :: i in history ==> history[i] == []
    ensures RoundsRecorded(history, 0)
  {
  }

  /** What a round leaves of the chosen step. */
  lemma RoundOutcome(deps: Explicit, ids: seq<Id>, b: State, w: World, r: int, i: Id)
    requires Consistent(deps, ids, b) && i in deps && b.recs[i].status == Failed
    ensures var a, advice := Round(b, w, r, i), AdviceOf(w, r);
            && i in a.recs && i in a.setup && a.recs[i].status != Pending
            && (a.recs[i].status == Skipped <==> advice.action == Skip)
            && (advice.action in {Skip, Abort} ==> a.recs[i].result == b.recs[i].result && a.setup[i] == b.setup[i])
            && (advice.action == Abort ==> a.recs[i].status == Failed)
            && (advice.action in {Retry, Replace} ==>
                  var c := Call(r, i, a.setup[i].skill, Resolve(Dict(a.setup[i].params), ResultsOf(b.recs)));
                  && a.calls == b.calls + [c]
                  && (a.recs[i].status == Done <==> w.answer(r, c).Reply?)
                  && (a.recs[i].status == Done ==>
                        a.recs[i].result == Some(w.answer(r, c).outputs) && a.recs[i].error == None)
                  && (a.recs[i].status == Failed ==>
                        a.recs[i].result == b.recs[i].result && a.recs[i].error == Some(w.answer(r, c).message)))
  {
    hide Adjust, Resolve, AdviceOf;
  }

  /** Call `k` was one of step `i`, and the node answered it. */
  ghost predicate Answered(w: World, t: State, k: int, i: Id) {
    0 <= k < |t.calls| && t.calls[k].step == i && w.answer(t.calls[k].round, t.calls[k]).Reply?
  }

  /** Between `s` and `t` step `i` was answered at most once, and not called
      again after that; it is done because of that answer and has its result. */
  ghost predicate AnswerCounts(w: World, s: State, t: State, i: Id)
    requires i in s.recs && i in t.recs
  {
    && s.calls <= t.calls
    && (forall k :: |s.calls| <= k && Answered(w, t, k, i) ==>
          && t.recs[i].status == Done
          && t.recs[i].result == Some(w.answer(t.calls[k].round, t.calls[k]).outputs)
          && forall m :: k < m < |t.calls| ==> t.calls[m].step != i)
    && (t.recs[i].status == Done && s.recs[i].status != Done ==> exists k :: |s.calls| <= k && Answered(w, t, k, i))
  }

  /** In every run, of all the calls of a step only the last can have been
      answered, and a step is repaired exactly by an answer, whose outputs are
      its result. */
  lemma {:induction false} LastAnswerCounts(deps: Explicit, ids: seq<Id>, w: World, s: State, r: nat, i: Id)
    requires Consistent(deps, ids, s) && i in deps
    ensures AnswerCounts(w, s, After(deps, ids, w, s, r), i)
  {
    hide Pick, Round, AdviceOf, AnswerCounts, Consistent;
    if r > 0 {
      LastAnswerCounts(deps, ids, w, s, r - 1, i);
      var b := After(deps, ids, w, s, r - 1);
      if Pick(deps, ids, b.recs).Some? {
        PickedStep(deps, ids, b);
        AnswerNext(deps, ids, w, s, b, r, Pick(deps, ids, b.recs).value, i);
      }
    } else {
      AfterNone(deps, ids, w, s);
      NoAnswerYet(w, s, i);
    }
  }

  lemma NoAnswerYet(w: World, s: State, i: Id)
    requires i in s.recs
    ensures AnswerCounts(w, s, s, i)
  {
  }

  lemma AnswerNext(deps: Explicit, ids: seq<Id>, w: World, s: State, b: State, r: int, p: Id, i: Id)
    requires Consistent(deps, ids, s) && Consistent(deps, ids, b) && i in deps && p in deps && b.recs[p].status == Failed
    requires AnswerCounts(w, s, b, i)
    ensures i in Round(b, w, r, p).recs && AnswerCounts(w, s, Round(b, w, r, p), i)
  {
    hide Round, AdviceOf, Resolve, AnswerCounts;
    RoundEffect(deps, ids, b, w, r, p);
    RoundOutcome(deps, ids, b, w, r, p);
    if i == p {
      CalledAgain(w, s, b, Round(b, w, r, p), i);
    } else {
      OtherCalled(w, s, b, Round(b, w, r, p), i);
    }
  }

  lemma SameAnswers(w: World, b: State, t: State, i: Id)
    requires b.calls <= t.calls
    ensures forall k :: 0 <= k < |b.calls| ==> (Answered(w, t, k, i) <==> Answered(w, b, k, i))
  {
    forall k | 0 <= k < |b.calls| ensures Answered(w, t, k, i) <==> Answered(w, b, k, i) {
      assert t.calls[k] == b.calls[k];
    }
  }

  lemma OtherCalled(w: World, s: State, b: State, t: State, i: Id)
    requires i in s.recs && i in b.recs && i in t.recs && AnswerCounts(w, s, b, i)
    requires t.recs[i] == b.recs[i] && (t.calls == b.calls || exists c :: t.calls == b.calls + [c] && c.step != i)
    ensures AnswerCounts(w, s, t, i)
  {
    SameAnswers(w, b, t, i);
    if t.recs[i].status == Done && s.recs[i].status != Done {
      var k :| |s.calls| <= k && Answered(w, b, k, i);
      assert Answered(w, t, k, i);
    }
  }

  /** The answer to the call decides how the step comes out of it. */
  ghost predicate Decides(w: World, c: Call, rec: Rec) {
    && (rec.status == Done <==> w.answer(c.round, c).Reply?)
    && (rec.status == Done ==> rec.result == Some(w.answer(c.round, c).outputs))
  }

  lemma CalledAgain(w: World, s: State, b: State, t: State, i: Id)
    requires i in s.recs && i in b.recs && i in t.recs && AnswerCounts(w, s, b, i) && b.recs[i].status == Failed
    requires t.calls == b.calls ==> t.recs[i].status != Done
    requires t.calls == b.calls || exists c :: t.calls == b.calls + [c] && c.step == i && Decides(w, c, t.recs[i])
    ensures AnswerCounts(w, s, t, i)
  {
    SameAnswers(w, b, t, i);
    if t.recs[i].status == Done {
      assert Answered(w, t, |b.calls|, i);
    }
  }

  // ---------------------------------------------------------------------------
  // Plans with backward references
  // ---------------------------------------------------------------------------

  function ExplicitOf(steps: map<Id, Step>): Explicit {
    map i | i in steps :: steps[i].dependsOn
  }

  /** The plan order is the order of the step numbers, as pipeline planning makes it. */
  ghost predicate Numbered(steps: map<Id, Step>, ids: seq<Id>) {
    && (forall x :: x in ids <==> x in steps)
    && forall m, n :: 0 <= m < n < |ids| ==> ids[m].num < ids[n].num
  }

  /** Every step has had its turn. */
  ghost predicate NonePending(recs: map<Id, Rec>) {
    forall i :: i in recs ==> recs[i].status != Pending
  }

  lemma {:induction false} EarliestFailedId(ids: seq<Id>, recs: map<Id, Rec>, n: nat) returns (k: nat)
    requires n < |ids| && IsFailed(recs, ids[n])
    ensures k <= n && IsFailed(recs, ids[k]) && forall m :: 0 <= m < k ==> !IsFailed(recs, ids[m])
  {
    if m :| 0 <= m < n && IsFailed(recs, ids[m]) {
      k := EarliestFailedId(ids, recs, m);
    } else {
      k := n;
    }
  }

  /** With backward `depends_on`, the loop always works on the first failed step
      of the plan. */
  lemma FirstFailedIsPicked(steps: map<Id, Step>, ids: seq<Id>, recs: map<Id, Rec>, n: nat)
    requires Numbered(steps, ids) && ExplicitBackward(steps) && SameKeys(recs, steps)
    requires n < |ids| && IsFailed(recs, ids[n]) && forall m :: 0 <= m < n ==> !IsFailed(recs, ids[m])
    ensures Pick(ExplicitOf(steps), ids, recs) == Some(ids[n])
  {
    var deps, i := ExplicitOf(steps), ids[n];
    assert i in ids;
    forall k | 0 <= k < |deps[i]| ensures !IsFailed(recs, deps[i][k]) {
      var d := deps[i][k];
      if d in steps {
        assert d in steps[i].dependsOn && d in ids;
        var m :| 0 <= m < |ids| && ids[m] == d;
      }
    }
    PickIsFirst(deps, ids, recs, n);
  }

  /** The chosen step, if any, has all its effective dependencies done or skipped,
      so that resolution finds a result wherever there will ever be one. */
  ghost predicate SeesSettled(steps: map<Id, Step>, ids: seq<Id>, recs: map<Id, Rec>)
    requires SameKeys(recs, steps)
  {
    var pick := Pick(ExplicitOf(steps), ids, recs);
    pick.Some? && pick.value in steps ==>
      forall d :: d in EffectiveDeps(steps, pick.value) ==> Settled(recs[d].status)
  }

  lemma BackwardSeesSettled(steps: map<Id, Step>, ids: seq<Id>, recs: map<Id, Rec>)
    requires Numbered(steps, ids) && ExplicitBackward(steps) && TemplatesBackward(steps)
    requires SameKeys(recs, steps) && NonePending(recs)
    ensures SeesSettled(steps, ids, recs)
  {
    hide EffectiveDeps, ExplicitOf, Pick, ExplicitBackward;
    var pick := Pick(ExplicitOf(steps), ids, recs);
    if pick.Some? {
      var n :| 0 <= n < |ids| && ids[n] == pick.value;
      var k := EarliestFailedId(ids, recs, n);
      FirstFailedIsPicked(steps, ids, recs, k);
      forall d | d in EffectiveDeps(steps, ids[k]) ensures Settled(recs[d].status) {
        BackwardIsSettled(steps, ids, recs, k, d);
      }
    }
  }

  lemma BackwardIsSettled(steps: map<Id, Step>, ids: seq<Id>, recs: map<Id, Rec>, k: nat, d: Id)
    requires Numbered(steps, ids) && ExplicitBackward(steps) && TemplatesBackward(steps)
    requires SameKeys(recs, steps) && NonePending(recs) && k < |ids| && ids[k] in steps
    requires forall m :: 0 <= m < k ==> !IsFailed(recs, ids[m])
    requires d in EffectiveDeps(steps, ids[k])
    ensures Settled(recs[d].status)
  {
    hide EffectiveDeps, ExplicitBackward;
    EffectiveIsEarlier(steps, ids, k, d);
    var m :| 0 <= m < k && ids[m] == d;
  }

  lemma EffectiveIsEarlier(steps: map<Id, Step>, ids: seq<Id>, k: nat, d: Id)
    requires Numbered(steps, ids) && ExplicitBackward(steps) && k < |ids| && ids[k] in steps
    requires forall e :: e in TemplateDeps(steps[ids[k]].params) && e in steps ==> e.num <= ids[k].num
    requires d in EffectiveDeps(steps, ids[k])
    ensures exists m :: 0 <= m < k && ids[m] == d
  {
    assert d != ids[k] && d.num <= ids[k].num;
    assert d in ids;
    var m :| 0 <= m < |ids| && ids[m] == d;
  }

  // ---------------------------------------------------------------------------
  // Exactly when repaired steps see all their inputs
  // ---------------------------------------------------------------------------

  /** Calls of step `j` fail, all others succeed. */
  function FailOnly(j: Id): (Id, Value) -> Outcome {
    (i: Id, params: Value) => if i == j then Raised(true, "", "") else Reply(map[])
  }

  ghost predicate AllPending(P: Plan) {
    forall i :: i in P.init ==> P.init[i].status == Pending
  }

  lemma TurnOfGood(P: Plan, order: seq<Id>, j: Id, i: Id)
    requires OrdersPlan(P, order) && AllPending(P) && P.call == FailOnly(j) && i in P.steps && i != j
    requires forall d :: d in EffectiveDeps(P.steps, i) ==> SerialRun(P, order)[d].status == Done
    ensures SerialRun(P, order)[i].status == Done
  {
    hide OrdersPlan, EffectiveDeps, SerialRun, Resolve;
    FinalEquation(P, order, i);
    NotItsOwnDep(P, order, i);
    var G := SerialRun(P, order)[i := P.init[i]];
    assert !Blocked(P.steps, G, i);
  }

  lemma TurnOfBad(P: Plan, order: seq<Id>, j: Id)
    requires OrdersPlan(P, order) && AllPending(P) && P.call == FailOnly(j) && j in P.steps
    ensures SerialRun(P, order)[j].status == Failed
  {
    hide OrdersPlan, EffectiveDeps, SerialRun, Resolve;
    FinalEquation(P, order, j);
  }

  /** The steps before the first one with a forward template all succeed. */
  lemma {:induction false} GoodPrefix(P: Plan, order: seq<Id>, ids: seq<Id>, n: nat, j: Id, m: nat)
    requires OrdersPlan(P, order) && AllPending(P) && P.call == FailOnly(j)
    requires Numbered(P.steps, ids) && ExplicitBackward(P.steps) && m < n < |ids| && ids[n].num < j.num
    requires forall k :: 0 <= k < n ==> ids[k] in P.steps && BackwardAt(P.steps, ids[k])
    ensures SerialRun(P, order)[ids[m]].status == Done
  {
    hide OrdersPlan, EffectiveDeps, SerialRun, FailOnly, AllPending, ExplicitBackward;
    assert BackwardAt(P.steps, ids[m]);
    forall d | d in EffectiveDeps(P.steps, ids[m]) ensures SerialRun(P, order)[d].status == Done {
      EffectiveIsEarlier(P.steps, ids, m, d);
      var k :| 0 <= k < m && ids[k] == d;
      GoodPrefix(P, order, ids, n, j, k);
    }
    TurnOfGood(P, order, j, ids[m]);
  }

  ghost predicate BackwardAt(steps: map<Id, Step>, i: Id)
    requires i in steps
  {
    forall e :: e in TemplateDeps(steps[i].params) && e in steps ==> e.num <= i.num
  }

  /** The first step of the plan with a forward template, and the step it names. */
  lemma {:induction false} FirstForward(steps: map<Id, Step>, ids: seq<Id>, k: nat) returns (n: nat, j: Id)
    requires k < |ids| && Numbered(steps, ids) && ids[k] in steps && !BackwardAt(steps, ids[k])
    ensures n <= k && ids[n] in steps && j in steps && j in TemplateDeps(steps[ids[n]].params) && ids[n].num < j.num
    ensures forall m :: 0 <= m < n ==> ids[m] in steps && BackwardAt(steps, ids[m])
  {
    assert forall m :: 0 <= m < |ids| ==> ids[m] in ids;
    if m :| 0 <= m < k && !BackwardAt(steps, ids[m]) {
      n, j := FirstForward(steps, ids, m);
    } else {
      n := k;
      j :| j in TemplateDeps(steps[ids[k]].params) && j in steps && j.num > ids[k].num;
    }
  }

  lemma OtherCall(P: Plan, order: seq<Id>, call: (Id, Value) -> Outcome)
    requires OrdersPlan(P, order)
    ensures OrdersPlan(P.(call := call), order)
  {
  }

  /** With a forward template some behaviour of the nodes makes the loop repair a
      step while the step its template names is failed. */
  lemma ForwardMisses(P: Plan, order: seq<Id>, ids: seq<Id>) returns (call: (Id, Value) -> Outcome)
    requires OrdersPlan(P, order) && AllPending(P)
    requires Numbered(P.steps, ids) && ExplicitBackward(P.steps) && !TemplatesBackward(P.steps)
    ensures var Q := P.(call := call);
            OrdersPlan(Q, order) && !SeesSettled(Q.steps, ids, SerialRun(Q, order))
  {
    hide SerialRun, EffectiveDeps, FailOnly, TemplateDeps, ExplicitBackward, OrdersPlan, SeesSettled;
    var i, d :| i in P.steps && d in TemplateDeps(P.steps[i].params) && d in P.steps && d.num > i.num;
    var k :| 0 <= k < |ids| && ids[k] == i;
    var n, j := FirstForward(P.steps, ids, k);
    call := FailOnly(j);
    var Q := P.(call := call);
    OtherCall(P, order, call);
    ForwardMissesAt(Q, order, ids, n, j);
  }

  lemma ForwardMissesAt(Q: Plan, order: seq<Id>, ids: seq<Id>, n: nat, j: Id)
    requires OrdersPlan(Q, order) && AllPending(Q) && Q.call == FailOnly(j)
    requires Numbered(Q.steps, ids) && ExplicitBackward(Q.steps) && n < |ids|
    requires ids[n] in Q.steps && j in Q.steps && j in TemplateDeps(Q.steps[ids[n]].params) && ids[n].num < j.num
    requires forall m :: 0 <= m < n ==> ids[m] in Q.steps && BackwardAt(Q.steps, ids[m])
    ensures !SeesSettled(Q.steps, ids, SerialRun(Q, order))
  {
    hide SerialRun, FailOnly, ExplicitBackward, OrdersPlan, Pick, AllPending;
    var F := SerialRun(Q, order);
    forall m | 0 <= m < n ensures !IsFailed(F, ids[m]) {
      GoodPrefix(Q, order, ids, n, j, m);
    }
    TurnOfBad(Q, order, j);
    assert j in EffectiveDeps(Q.steps, ids[n]);
    PendingSteps(Q, ids[n]);
    FinalStatus(Q, order, ids[n]);
    assert Blocked(Q.steps, F, ids[n]);
    FirstFailedIsPicked(Q.steps, ids, F, n);
  }

  lemma PendingSteps(P: Plan, i: Id)
    requires AllPending(P) && WellFormed(P) && i in P.steps
    ensures !Settled(P.init[i].status)
  {
  }

  /** For pipeline plans (backward `depends_on`, acyclic): whatever the nodes do,
      the step repaired first sees all its effective dependencies settled, if and
      only if no template of the plan names a later step. */
  lemma RepairSeesSettled(P: Plan, order: seq<Id>, ids: seq<Id>)
    requires OrdersPlan(P, order) && AllPending(P) && Numbered(P.steps, ids) && ExplicitBackward(P.steps)
    ensures TemplatesBackward(P.steps) <==> forall call :: SeesAfterPass(P, order, ids, call)
  {
    hide SerialRun, SeesSettled, ExplicitBackward, Pick, EffectiveDeps;
    if TemplatesBackward(P.steps) {
      forall call ensures SeesAfterPass(P, order, ids, call) {
        var Q := P.(call := call);
        OtherCall(P, order, call);
        FinalNonePending(Q, order);
        BackwardSeesSettled(Q.steps, ids, SerialRun(Q, order));
      }
    } else {
      var call := ForwardMisses(P, order, ids);
      assert !SeesAfterPass(P, order, ids, call);
    }
  }

  ghost predicate SeesAfterPass(P: Plan, order: seq<Id>, ids: seq<Id>, call: (Id, Value) -> Outcome) {
    var Q := P.(call := call);
    OrdersPlan(Q, order) && SeesSettled(Q.steps, ids, SerialRun(Q, order))
  }

  lemma FinalNonePending(P: Plan, order: seq<Id>)
    requires OrdersPlan(P, order)
    ensures NonePending(SerialRun(P, order))
  {
    hide SerialRun, OrdersPlan, EffectiveDeps;
    forall i | i in SerialRun(P, order) ensures SerialRun(P, order)[i].status != Pending {
      FinalStatus(P, order, i);
    }
  }

  // ---------------------------------------------------------------------------
  // Rounds that rewrite parameters
  // ---------------------------------------------------------------------------

  /** The plan with the parameters as they are now. */
  function Current(steps: map<Id, Step>, t: State): map<Id, Step>
    requires SameKeys(t.setup, steps)
  {
    map i | i in steps :: Step(Dict(t.setup[i].params), steps[i].dependsOn)
  }

  /** An advice to run step `i` again names no later step of the plan in the
      parameters it brings. */
  ghost predicate AdviceBackward(steps: map<Id, Step>, advice: Advice, i: Id) {
    advice.action in {Retry, Replace} ==>
      forall d :: d in TemplateDeps(Dict(advice.params)) && d in steps ==> d.num <= i.num
  }

  /** So does the advice of each of the first `r` rounds for the step of that round. */
  ghost predicate AllAdviceBackward(steps: map<Id, Step>, ids: seq<Id>, w: World, s: State, r: nat)
    requires Consistent(ExplicitOf(steps), ids, s)
  {
    forall k: nat :: k < r && Pick(ExplicitOf(steps), ids, After(ExplicitOf(steps), ids, w, s, k).recs).Some? ==>
      AdviceBackward(steps, AdviceOf(w, k + 1), Pick(ExplicitOf(steps), ids, After(ExplicitOf(steps), ids, w, s, k).recs).value)
  }

  /** And in every later round too, as long as no advised parameter names a later
      step: the step of round `r`, with its parameters as that round has rewritten
      them, has all its effective dependencies done or skipped when it is run. */
  lemma {:induction false} LaterRepairsSeeSettled(steps: map<Id, Step>, ids: seq<Id>, w: World, s: State, r: nat)
    requires Numbered(steps, ids) && ExplicitBackward(steps)
    requires Consistent(ExplicitOf(steps), ids, s) && NonePending(s.recs) && TemplatesBackward(Current(steps, s))
    requires AllAdviceBackward(steps, ids, w, s, r)
    ensures var t := After(ExplicitOf(steps), ids, w, s, r);
            && SameKeys(t.recs, steps) && SameKeys(t.setup, steps)
            && NonePending(t.recs) && TemplatesBackward(Current(steps, t))
            && (r > 0 ==>
                  var b := After(ExplicitOf(steps), ids, w, s, r - 1);
                  SameKeys(b.recs, steps) && SeesSettled(Current(steps, t), ids, b.recs))
  {
    hide Pick, Numbered, ExplicitBackward, TemplatesBackward, AdviceOf, Round, NonePending, SeesSettled, Current,
         AdviceBackward, Repairable, After, ExplicitOf, Consistent;
    var deps := ExplicitOf(steps);
    if r > 0 {
      LaterRepairsSeeSettled(steps, ids, w, s, r - 1);
      RewriteNext(steps, ids, w, After(deps, ids, w, s, r - 1), r);
      AfterNext(deps, ids, w, s, r);
      CurrentSees(steps, ids, After(deps, ids, w, s, r - 1), After(deps, ids, w, s, r));
    } else {
      AfterFirst(deps, ids, w, s);
      ConsistentKeys(steps, ids, s);
    }
  }

  lemma ConsistentKeys(steps: map<Id, Step>, ids: seq<Id>, s: State)
    requires Consistent(ExplicitOf(steps), ids, s)
    ensures SameKeys(s.recs, steps) && SameKeys(s.setup, steps) && forall i :: i in steps ==> i in s.recs
  {
  }

  lemma AfterNext(deps: Explicit, ids: seq<Id>, w: World, s: State, r: nat)
    requires Consistent(deps, ids, s) && r > 0
    ensures var b := After(deps, ids, w, s, r - 1);
      && (Pick(deps, ids, b.recs).None? ==> After(deps, ids, w, s, r) == b)
      && (Pick(deps, ids, b.recs).Some? ==>
            var i := Pick(deps, ids, b.recs).value;
            i in b.recs && i in b.setup && i in b.history && After(deps, ids, w, s, r) == Round(b, w, r, i))
  {
    hide Pick, Round;
  }

  /** The step of round `r + 1`, with its parameters as that round has rewritten
      them, sees its dependencies settled. */
  ghost predicate RepairSees(steps: map<Id, Step>, ids: seq<Id>, w: World, s: State, r: nat)
    requires Consistent(ExplicitOf(steps), ids, s)
  {
    var b, t := After(ExplicitOf(steps), ids, w, s, r), After(ExplicitOf(steps), ids, w, s, r + 1);
    SameKeys(t.setup, steps) && SameKeys(b.recs, steps) && SeesSettled(Current(steps, t), ids, b.recs)
  }

  /** In the run that follows the first pass with these node answers, every
      repair up to which the advice names no later step sees its inputs. */
  ghost predicate RunSees(P: Plan, order: seq<Id>, ids: seq<Id>, setup: map<Id, Setup>, history: map<Id, seq<Reflection>>,
                          call: (Id, Value) -> Outcome, w: World)
  {
    var Q := P.(call := call);
    && OrdersPlan(Q, order)
    && var s := State(SerialRun(Q, order), setup, history, []);
       && Consistent(ExplicitOf(P.steps), ids, s)
       && forall r: nat :: AllAdviceBackward(P.steps, ids, w, s, r + 1) ==> RepairSees(P.steps, ids, w, s, r)
  }

  /** Over whole runs: whatever the nodes answer and whatever is advised, as long
      as no advised parameter names a later step, every repair sees all its
      inputs settled, if and only if no template of the plan names a later step. */
  lemma AllRepairsSeeSettled(P: Plan, order: seq<Id>, ids: seq<Id>, setup: map<Id, Setup>, history: map<Id, seq<Reflection>>)
    requires OrdersPlan(P, order) && AllPending(P) && Numbered(P.steps, ids) && ExplicitBackward(P.steps)
    requires SetUp(P, setup, history)
    ensures TemplatesBackward(P.steps) <==> forall call, w :: RunSees(P, order, ids, setup, history, call, w)
  {
    hide SerialRun, OrdersPlan, AllPending, Numbered, ExplicitBackward, TemplatesBackward, RunSees, SetUp;
    if TemplatesBackward(P.steps) {
      forall call, w ensures RunSees(P, order, ids, setup, history, call, w) {
        BackwardRunSees(P, order, ids, setup, history, call, w);
      }
    } else {
      var call := ForwardMisses(P, order, ids);
      var w := RetryAlways();
      ForwardRunMisses(P, order, ids, setup, history, call, w);
    }
  }

  /** The rewritable fields and histories that go with the plan. */
  ghost predicate SetUp(P: Plan, setup: map<Id, Setup>, history: map<Id, seq<Reflection>>) {
    && SameKeys(setup, P.steps) && SameKeys(history, P.steps)
    && forall i :: i in P.steps ==> P.steps[i].params == Dict(setup[i].params)
  }

  /** An adviser that always advises to retry, and nodes that answer nothing. */
  function RetryAlways(): World {
    World((r: int) => Ok(Advice(Retry, "", None, [], None)), (r: int, c: Call) => Reply(map[]))
  }

  lemma AfterPass(P: Plan, order: seq<Id>, ids: seq<Id>, setup: map<Id, Setup>, history: map<Id, seq<Reflection>>,
                  call: (Id, Value) -> Outcome)
    requires OrdersPlan(P, order) && Numbered(P.steps, ids) && SetUp(P, setup, history)
    ensures OrdersPlan(P.(call := call), order)
    ensures var s := State(SerialRun(P.(call := call), order), setup, history, []);
      && Consistent(ExplicitOf(P.steps), ids, s) && NonePending(s.recs)
      && SameKeys(s.recs, P.steps) && SameKeys(s.setup, P.steps) && Current(P.steps, s) == P.steps
  {
    hide SerialRun, OrdersPlan, NonePending, ExplicitOf, Current, SetUp, Numbered;
    OtherCall(P, order, call);
    FinalNonePending(P.(call := call), order);
    var recs := SerialRun(P.(call := call), order);
    SerialKeys(P.(call := call), order);
    StateFits(P, ids, setup, history, recs);
  }

  lemma SerialKeys(P: Plan, order: seq<Id>)
    requires OrdersPlan(P, order)
    ensures SameKeys(SerialRun(P, order), P.steps)
  {
    hide SerialRun, EffectiveGraph, IsTopoOrder;
  }

  lemma StateFits(P: Plan, ids: seq<Id>, setup: map<Id, Setup>, history: map<Id, seq<Reflection>>, recs: map<Id, Rec>)
    requires Numbered(P.steps, ids) && SetUp(P, setup, history) && SameKeys(recs, P.steps)
    ensures var s := State(recs, setup, history, []);
      Consistent(ExplicitOf(P.steps), ids, s) && Current(P.steps, s) == P.steps
  {
    var t := State(recs, setup, history, []);
    hide Current;
    CurrentIs(P.steps, t, P.steps);
    hide *;
    StateConsistent(P.steps, ids, t);
  }

  lemma StateConsistent(steps: map<Id, Step>, ids: seq<Id>, s: State)
    requires (forall x :: x in ids <==> x in steps) && SameKeys(s.recs, steps)
    requires SameKeys(s.setup, steps) && SameKeys(s.history, steps)
    ensures Consistent(ExplicitOf(steps), ids, s)
  {
  }

  /** The current plan, told step by step. */
  lemma CurrentIs(steps: map<Id, Step>, t: State, plan: map<Id, Step>)
    requires SameKeys(t.setup, steps) && SameKeys(plan, steps)
    requires forall i :: i in steps ==>
      plan[i].params == Dict(t.setup[i].params) && plan[i].dependsOn == steps[i].dependsOn
    ensures Current(steps, t) == plan
  {
    var c := Current(steps, t);
    forall i | i in steps ensures c[i] == plan[i] {
      SameStep(c[i], plan[i]);
    }
  }

  lemma SameStep(a: Step, b: Step)
    requires a.params == b.params && a.dependsOn == b.dependsOn
    ensures a == b
  {
  }

  lemma BackwardRunSees(P: Plan, order: seq<Id>, ids: seq<Id>, setup: map<Id, Setup>, history: map<Id, seq<Reflection>>,
                        call: (Id, Value) -> Outcome, w: World)
    requires OrdersPlan(P, order) && Numbered(P.steps, ids) && ExplicitBackward(P.steps) && TemplatesBackward(P.steps)
    requires SetUp(P, setup, history)
    ensures RunSees(P, order, ids, setup, history, call, w)
  {
    hide SerialRun, OrdersPlan, Numbered, ExplicitBackward, TemplatesBackward, Current, Consistent, ExplicitOf, SetUp,
         SeesSettled, After, AllAdviceBackward, NonePending;
    AfterPass(P, order, ids, setup, history, call);
    var s := State(SerialRun(P.(call := call), order), setup, history, []);
    forall r: nat | AllAdviceBackward(P.steps, ids, w, s, r + 1) ensures RepairSees(P.steps, ids, w, s, r) {
      LaterRepairsSeeSettled(P.steps, ids, w, s, r + 1);
    }
  }

  lemma ForwardRunMisses(P: Plan, order: seq<Id>, ids: seq<Id>, setup: map<Id, Setup>, history: map<Id, seq<Reflection>>,
                         call: (Id, Value) -> Outcome, w: World)
    requires OrdersPlan(P, order) && Numbered(P.steps, ids) && SetUp(P, setup, history) && w == RetryAlways()
    requires var Q := P.(call := call); OrdersPlan(Q, order) && !SeesSettled(Q.steps, ids, SerialRun(Q, order))
    ensures !RunSees(P, order, ids, setup, history, call, w)
  {
    hide SerialRun, OrdersPlan, Numbered, SetUp, SeesSettled, NonePending, Current, Consistent, ExplicitOf;
    AfterPass(P, order, ids, setup, history, call);
    var s := State(SerialRun(P.(call := call), order), setup, history, []);
    RetryIsBackward(P.steps, ids, s);
    assert AllAdviceBackward(P.steps, ids, w, s, 0 + 1);
    FirstRetry(P.steps, ids, s);
    assert !RepairSees(P.steps, ids, w, s, 0);
  }

  lemma RetryIsBackward(steps: map<Id, Step>, ids: seq<Id>, s: State)
    requires Consistent(ExplicitOf(steps), ids, s)
    ensures AllAdviceBackward(steps, ids, RetryAlways(), s, 1)
  {
    hide After, Pick, Consistent, ExplicitOf;
  }

  /** A first round that only retries leaves the parameters as they are. */
  lemma FirstRetry(steps: map<Id, Step>, ids: seq<Id>, s: State)
    requires Consistent(ExplicitOf(steps), ids, s) && SameKeys(s.setup, steps) && SameKeys(s.recs, steps)
    ensures After(ExplicitOf(steps), ids, RetryAlways(), s, 0) == s
    ensures var t := After(ExplicitOf(steps), ids, RetryAlways(), s, 1);
      SameKeys(t.setup, steps) && Current(steps, t) == Current(steps, s)
  {
    hide Pick, Round, Current, ExplicitOf, Consistent;
    var deps := ExplicitOf(steps);
    var pick := Pick(deps, ids, s.recs);
    AfterFirst(deps, ids, RetryAlways(), s);
    if pick.Some? {
      RetryKeepsSetup(s, pick.value);
    }
    SameSetup(steps, After(deps, ids, RetryAlways(), s, 1), s);
  }

  lemma AfterFirst(deps: Explicit, ids: seq<Id>, w: World, s: State)
    requires Consistent(deps, ids, s)
    ensures var pick := Pick(deps, ids, s.recs);
      && After(deps, ids, w, s, 0) == s
      && (pick.None? ==> After(deps, ids, w, s, 1) == s)
      && (pick.Some? ==> pick.value in s.recs && pick.value in s.setup && pick.value in s.history
                         && After(deps, ids, w, s, 1) == Round(s, w, 1, pick.value))
  {
    hide Pick, Round;
    assert After(deps, ids, w, s, 0) == s;
  }

  lemma SameSetup(steps: map<Id, Step>, a: State, b: State)
    requires SameKeys(a.setup, steps) && a.setup == b.setup
    ensures Current(steps, a) == Current(steps, b)
  {
  }

  lemma RetryKeepsSetup(s: State, i: Id)
    requires i in s.recs && i in s.setup && i in s.history
    ensures Round(s, RetryAlways(), 1, i).setup == s.setup
  {
    hide Resolve, Rerun;
  }

  /** A plan with other parameters, looked at with the states from before. */
  lemma CurrentSees(steps: map<Id, Step>, ids: seq<Id>, b: State, t: State)
    requires Numbered(steps, ids) && ExplicitBackward(steps)
    requires SameKeys(b.recs, steps) && SameKeys(t.setup, steps) && NonePending(b.recs)
    requires TemplatesBackward(Current(steps, t))
    ensures SeesSettled(Current(steps, t), ids, b.recs)
  {
    hide TemplatesBackward, SeesSettled, NonePending;
    BackwardSeesSettled(Current(steps, t), ids, b.recs);
  }

  /** One round keeps the parameters of the plan backward. */
  lemma RewriteNext(steps: map<Id, Step>, ids: seq<Id>, w: World, b: State, r: int)
    requires Consistent(ExplicitOf(steps), ids, b) && NonePending(b.recs) && TemplatesBackward(Current(steps, b))
    requires Pick(ExplicitOf(steps), ids, b.recs).Some? ==>
               AdviceBackward(steps, AdviceOf(w, r), Pick(ExplicitOf(steps), ids, b.recs).value)
    ensures var pick := Pick(ExplicitOf(steps), ids, b.recs);
            pick.Some? ==>
              && pick.value in b.recs && pick.value in b.setup && pick.value in b.history
              && var t := Round(b, w, r, pick.value);
                 SameKeys(t.recs, steps) && SameKeys(t.setup, steps) && NonePending(t.recs)
                 && TemplatesBackward(Current(steps, t))
  {
    hide Round, AdviceOf, Pick, TemplateDeps, AdviceBackward, TemplatesBackward, Rewritten, NonePending;
    var pick := Pick(ExplicitOf(steps), ids, b.recs);
    if pick.Some? {
      PickedStep(ExplicitOf(steps), ids, b);
      RewriteRound(ExplicitOf(steps), ids, b, w, r, pick.value);
      StillBackward(steps, b, Round(b, w, r, pick.value), AdviceOf(w, r), pick.value);
    }
  }

  lemma StillBackward(steps: map<Id, Step>, b: State, t: State, advice: Advice, i: Id)
    requires SameKeys(b.setup, steps) && SameKeys(t.setup, steps) && i in steps && TemplatesBackward(Current(steps, b))
    requires AdviceBackward(steps, advice, i) && Rewritten(b, t, advice, i)
    ensures TemplatesBackward(Current(steps, t))
  {
    hide TemplateDeps;
    forall j, d | j in steps && d in TemplateDeps(Dict(t.setup[j].params)) && d in steps ensures d.num <= j.num {
      assert d in TemplateDeps(Current(steps, b)[j].params) || (j == i && d in TemplateDeps(Dict(advice.params)));
    }
  }

  /** What the rewriting of step `i` does to the steps that parameters name. */
  ghost predicate Rewritten(b: State, t: State, advice: Advice, i: Id)
    requires SameKeys(b.setup, t.setup) && i in b.setup
  {
    && (forall j :: j in b.setup && j != i ==> t.setup[j].params == b.setup[j].params)
    && (forall d :: d in TemplateDeps(Dict(t.setup[i].params)) ==>
          d in TemplateDeps(Dict(b.setup[i].params))
          || (advice.action in {Retry, Replace} && d in TemplateDeps(Dict(advice.params))))
  }

  lemma {:induction false} MergeEntries(base: seq<Entry>, extra: seq<Entry>)
    ensures forall e :: e in Merge(base, extra) ==> e in base || e in extra
    decreases extra
  {
    if extra != [] {
      PutEntries(base, extra[0]);
      MergeEntries(Put(base, extra[0]), extra[1..]);
    }
  }

  lemma {:induction false} PutEntries(base: seq<Entry>, e: Entry)
    ensures forall x :: x in Put(base, e) ==> x in base || x == e
  {
    if base != [] && base[0].key != e.key {
      PutEntries(base[1..], e);
    }
  }

  lemma EntryDeps(es: seq<Entry>, d: Id)
    ensures d in TemplateDeps(Dict(es)) <==> exists e :: e in es && d in TemplateDeps(e.value)
  {
    if e :| e in es && d in TemplateDeps(e.value) {
      var k :| 0 <= k < |es| && es[k] == e;
    }
  }

  lemma MergeDeps(base: seq<Entry>, extra: seq<Entry>, d: Id)
    requires d in TemplateDeps(Dict(Merge(base, extra)))
    ensures d in TemplateDeps(Dict(base)) || d in TemplateDeps(Dict(extra))
  {
    hide TemplateDeps;
    EntryDeps(Merge(base, extra), d);
    MergeEntries(base, extra);
    EntryDeps(base, d);
    EntryDeps(extra, d);
  }

  lemma PickedStep(deps: Explicit, ids: seq<Id>, b: State)
    requires Consistent(deps, ids, b) && Pick(deps, ids, b.recs).Some?
    ensures var i := Pick(deps, ids, b.recs).value;
            i in deps && i in b.recs && i in b.setup && i in b.history && b.recs[i].status == Failed
  {
    hide Pick;
  }

  lemma RewriteRound(deps: Explicit, ids: seq<Id>, b: State, w: World, r: int, i: Id)
    requires Consistent(deps, ids, b) && i in deps && b.recs[i].status == Failed && NonePending(b.recs)
    ensures var t := Round(b, w, r, i);
            && SameKeys(t.recs, b.recs) && SameKeys(t.setup, b.setup) && NonePending(t.recs)
            && Rewritten(b, t, AdviceOf(w, r), i)
  {
    hide Resolve, AdviceOf, TemplateDeps, Adjust, Rerun;
    RoundEffect(deps, ids, b, w, r, i);
    RoundOutcome(deps, ids, b, w, r, i);
    var advice := AdviceOf(w, r);
    forall d | d in TemplateDeps(Dict(Adjust(b.setup[i], advice).params))
      ensures d in TemplateDeps(Dict(b.setup[i].params)) || d in TemplateDeps(Dict(advice.params))
    {
      AdjustDeps(b.setup[i], advice, d);
    }
  }

  /** A rewritten step names no steps but those it named and those advised. */
  lemma AdjustDeps(setup: Setup, advice: Advice, d: Id)
    requires d in TemplateDeps(Dict(Adjust(setup, advice).params))
    ensures d in TemplateDeps(Dict(setup.params)) || d in TemplateDeps(Dict(advice.params))
  {
    hide TemplateDeps, Merge;
    if advice.params != [] {
      MergeDeps(setup.params, advice.params, d);
    }
  }

  // ---------------------------------------------------------------------------
  // The whole executor
  // ---------------------------------------------------------------------------

  /** `run`: histories are dropped, the plan gets its ready-set pass, then the
      failed steps are repaired within the budget. */
  method Run(P: Plan, ids: seq<Id>, maxWorkers: int, maxReflections: int, w: World,
             setup: map<Id, Setup>, history: map<Id, seq<Reflection>>)
    returns (r: Result<Ending, TaskGraph.GraphError>)
    requires WellFormed(P) && P.catchAll && (forall x :: x in ids <==> x in P.steps)
    requires SameKeys(setup, P.steps) && SameKeys(history, P.steps)
    requires forall i :: i in P.steps ==> P.steps[i].params == Dict(setup[i].params)
    ensures r.Ok? <==> Distinct(ids) && !HasCycle(EffectiveGraph(P.steps))
    ensures r.Ok? ==>
              var e := r.value;
              && SameKeys(e.state.recs, P.steps)
              && 0 <= e.used <= (if maxReflections < 0 then 0 else maxReflections)
              && RoundsRecorded(e.state.history, e.used)
              && (e.exit == NothingToRepair ==> forall i :: i in P.steps ==> e.state.recs[i].status != Failed)
              && (e.exit == BudgetSpent ==> e.used == if maxReflections < 0 then 0 else maxReflections)
              && (e.exit == Aborted ==> e.used > 0 && AdviceOf(w, e.used).action == Abort)
    ensures r.Ok? ==> forall order :: OrdersPlan(P, order) ==> PassKept(P, order, r.value.state)
    ensures r.Ok? ==> exists trace :: RunsThrough(P, ids, w, setup, r.value, trace)
  {
    hide *;
    var deps := ExplicitOf(P.steps);
    StartConsistent(P, ids, setup, history);
    var executor := new ReflectiveExecutor(deps, ids, maxReflections, P.init, setup, history);
    executor.ResetHistory();
    var pass := ExecuteReadySet(P, ids, maxWorkers);
    if pass.Err? {
      return Err(pass.error);
    }
    ghost var order :| OrdersPlan(P, order);
    PassConsistent(P, ids, order, executor.Now(), pass.value);
    executor.recs := pass.value;
    ghost var start := executor.Now();
    var used, exit := executor.Reflect(w);
    r := Ok(Ending(executor.Now(), used, exit));
    Summary(P, ids, order, w, maxReflections, start);
    forall other | OrdersPlan(P, other) ensures PassKept(P, other, r.value.state) {
      PassStays(P, ids, other, w, maxReflections, start);
    }
    ghost var trace := RunTrace(P, ids, w, maxReflections, setup, start);
  }

  /** The states of a whole run: the first is what the pass over the plan leaves,
      with nothing rewritten or recorded yet, and the last is the state at the end. */
  ghost predicate RunsThrough(P: Plan, ids: seq<Id>, w: World, setup: map<Id, Setup>, e: Ending, trace: seq<State>) {
    && WellFormed(P) && e.used >= 0
    && IsTrace(map i | i in P.steps :: P.steps[i].dependsOn, ids, w, e.used, trace) && trace[e.used] == e.state
    && SameKeys(trace[0].recs, P.steps) && (forall i :: i in P.steps ==> LeftWith(P, trace[0].recs, i))
    && trace[0].setup == setup && trace[0].calls == []
    && forall i :: i in P.steps ==> i in trace[0].history && trace[0].history[i] == []
  }

  lemma ExplicitIs(steps: map<Id, Step>)
    ensures ExplicitOf(steps) == map i | i in steps :: steps[i].dependsOn
  {
  }

  lemma RunTrace(P: Plan, ids: seq<Id>, w: World, budget: int, setup: map<Id, Setup>, s: State) returns (trace: seq<State>)
    requires WellFormed(P) && Consistent(ExplicitOf(P.steps), ids, s)
    requires SameKeys(s.recs, P.steps) && (forall i :: i in P.steps ==> LeftWith(P, s.recs, i))
    requires s.setup == setup && s.calls == [] && (forall i :: i in s.history ==> s.history[i] == [])
    ensures RunsThrough(P, ids, w, setup, Loop(ExplicitOf(P.steps), ids, w, budget, s, 0), trace)
  {
    hide Loop, Consistent, LeftWith, IsTrace, ExplicitOf, States;
    LoopIsTrace(ExplicitOf(P.steps), ids, w, budget, s);
    ExplicitIs(P.steps);
    HistoryKeys(P.steps, ids, s);
    trace := States(ExplicitOf(P.steps), ids, w, s, Loop(ExplicitOf(P.steps), ids, w, budget, s, 0).used);
  }

  /** Steps that were done or skipped after the first pass still are as they were. */
  ghost predicate PassKept(P: Plan, order: seq<Id>, s: State)
    requires OrdersPlan(P, order)
  {
    forall i :: i in P.steps && Settled(SerialRun(P, order)[i].status) ==>
      i in s.recs && s.recs[i] == SerialRun(P, order)[i]
  }

  lemma StartConsistent(P: Plan, ids: seq<Id>, setup: map<Id, Setup>, history: map<Id, seq<Reflection>>)
    requires WellFormed(P) && (forall x :: x in ids <==> x in P.steps)
    requires SameKeys(setup, P.steps) && SameKeys(history, P.steps)
    ensures Consistent(ExplicitOf(P.steps), ids, State(P.init, setup, history, []))
  {
  }

  lemma PassConsistent(P: Plan, ids: seq<Id>, order: seq<Id>, s: State, recs: map<Id, Rec>)
    requires OrdersPlan(P, order) && Consistent(ExplicitOf(P.steps), ids, s) && SameMap(recs, SerialRun(P, order))
    ensures Consistent(ExplicitOf(P.steps), ids, s.(recs := recs))
  {
    hide SerialRun;
  }

  lemma OrdersExplicitToo(P: Plan, order: seq<Id>)
    requires OrdersPlan(P, order)
    ensures OrdersExplicit(ExplicitOf(P.steps), order)
  {
    hide OrdersPlan, Distinct, ExplicitOf, Edge;
    OrderMembers(P, order);
    forall k, d | 0 <= k < |order| && Edge(ExplicitOf(P.steps), order[k], d) ensures d in order[..k] {
      ExplicitIsBefore(P, order, k, d);
    }
  }

  lemma OrderMembers(P: Plan, order: seq<Id>)
    requires OrdersPlan(P, order)
    ensures Distinct(order) && forall x :: x in order <==> x in ExplicitOf(P.steps)
  {
    hide DepsFirst, EffectiveGraph, Distinct, WellFormed;
  }

  lemma ExplicitIsBefore(P: Plan, order: seq<Id>, k: nat, d: Id)
    requires OrdersPlan(P, order) && k < |order| && Edge(ExplicitOf(P.steps), order[k], d)
    ensures d in order[..k]
  {
    hide OrdersPlan, TemplateDeps;
    DepIsBefore(P, order, k, d);
  }

  lemma Summary(P: Plan, ids: seq<Id>, order: seq<Id>, w: World, budget: int, s: State)
    requires OrdersPlan(P, order) && Consistent(ExplicitOf(P.steps), ids, s)
    requires forall i :: i in s.history ==> s.history[i] == []
    ensures var e := Loop(ExplicitOf(P.steps), ids, w, budget, s, 0);
            && SameKeys(e.state.recs, P.steps)
            && 0 <= e.used <= (if budget < 0 then 0 else budget)
            && RoundsRecorded(e.state.history, e.used)
            && (e.exit == NothingToRepair ==> forall i :: i in P.steps ==> e.state.recs[i].status != Failed)
            && (e.exit == BudgetSpent ==> e.used == if budget < 0 then 0 else budget)
            && (e.exit == Aborted ==> e.used > 0 && AdviceOf(w, e.used).action == Abort)
  {
    hide Loop, OrdersPlan, After, RoundsRecorded, AdviceOf, Pick, Consistent, ExplicitOf, OrdersExplicit, SameKeys;
    var deps := ExplicitOf(P.steps);
    var e := Loop(deps, ids, w, budget, s, 0);
    OrdersExplicitToo(P, order);
    AfterNone(deps, ids, w, s);
    LoopIsAfter(deps, ids, w, budget, s, 0);
    EndOfRun(deps, ids, order, w, budget, s);
    ConsistentKeys(P.steps, ids, e.state);
    HistoryKeys(P.steps, ids, s);
    RunRecordsRounds(deps, ids, w, s, e.used);
  }

  lemma HistoryKeys(steps: map<Id, Step>, ids: seq<Id>, s: State)
    requires Consistent(ExplicitOf(steps), ids, s)
    ensures (forall i :: i in ExplicitOf(steps) <==> i in steps) && forall i :: i in ExplicitOf(steps) <==> i in s.history
  {
  }

  lemma PassStays(P: Plan, ids: seq<Id>, order: seq<Id>, w: World, budget: int, s: State)
    requires OrdersPlan(P, order) && Consistent(ExplicitOf(P.steps), ids, s) && SameMap(s.recs, SerialRun(P, order))
    ensures PassKept(P, order, Loop(ExplicitOf(P.steps), ids, w, budget, s, 0).state)
  {
    hide Loop, OrdersPlan, After, AdviceOf, Pick, SerialRun;
    var deps := ExplicitOf(P.steps);
    LoopIsAfter(deps, ids, w, budget, s, 0);
    AfterNone(deps, ids, w, s);
    var used := Loop(deps, ids, w, budget, s, 0).used;
    forall i | i in P.steps && Settled(SerialRun(P, order)[i].status)
      ensures i in After(deps, ids, w, s, used).recs && After(deps, ids, w, s, used).recs[i] == SerialRun(P, order)[i]
    {
      SettledStays(deps, ids, w, s, used, i);
    }
  }
}
