// What a dispatch does to workers, health marks and leases, and every run of
// the marks and of the lease table (src/geonexus/cafe/central.py).
module Dispatching {
  import opened Wrappers
  import opened Filters
  import opened Routing

  // ---------------------------------------------------------------------
  // Leases
  // ---------------------------------------------------------------------

  datatype Lease = Lease(taskId: string, workerId: string, expiresAt: real, attempt: nat)

  /** Every lease stands under the id of its own task. */
  ghost predicate Keyed(leases: map<string, Lease>) {
    forall t :: t in leases ==> leases[t].taskId == t
  }

  // ---------------------------------------------------------------------
  // What one dispatch does
  // ---------------------------------------------------------------------

  datatype Error = Text(text: string) | Unroutable(reason: Reason)

  /** A worker's answer; `tried` is the list of attempted workers that dispatch
      adds to the error of its last failure. */
  datatype Reply = Reply(succeeded: bool, retryable: bool, error: Error, tried: Option<set<string>>)

  /** `worker.execute` answers or raises. */
  datatype Execution = Raised | Returned(reply: Reply)

  /** The readings of the clock in round `r`: when it checks the health of a
      worker, registers the lease, and marks a failed worker. */
  datatype Times = Times(checks: nat -> string -> real, leased: nat -> real, failed: nat -> real)

  ghost predicate Monotone(times: Times) {
    forall i: nat, j: nat, id: string :: i <= j ==> times.checks(i)(id) <= times.checks(j)(id)
  }

  predicate CanRetry(e: Execution) {
    e.Returned? && !e.reply.succeeded && e.reply.retryable
  }

  function SetOf(calls: seq<string>): set<string> {
    set c | c in calls
  }

  /** Routing among `ws` picks `id`. */
  ghost predicate Picks(ws: seq<Worker>, req: Request, until: map<string, real>, clock: string -> real, id: string) {
    exists i :: Preferred(Fits(ws, req, until, clock), req, i) && Fits(ws, req, until, clock)[i].id == id
  }

  /** Each call goes to the preferred worker among those not called before,
      judged by the health marks from before the dispatch. */
  ghost predicate Greedy(ws: seq<Worker>, req: Request, until: map<string, real>, times: Times, calls: seq<string>) {
    forall i :: 0 <= i < |calls| ==> Picks(Untried(ws, SetOf(calls[..i])), req, until, times.checks(i), calls[i])
  }

  ghost predicate NoneTwice(calls: seq<string>) {
    forall i, j :: 0 <= i < j < |calls| ==> calls[i] != calls[j]
  }

  /** Call `i` goes to the worker that the routing rule chooses among those not
      called before. */
  ghost predicate BestOfRest(ws: seq<Worker>, req: Request, until: map<string, real>, times: Times, calls: seq<string>, i: int) {
    && 0 <= i < |calls|
    && exists n :: ChosenAt(ws, SetOf(calls[..i]), req, until, times.checks(i), n) && ws[n].id == calls[i]
  }

  /** No worker is left that could be called. */
  ghost predicate NobodyLeft(ws: seq<Worker>, req: Request, until: map<string, real>, clock: string -> real, calls: seq<string>) {
    forall w :: w in ws && w.id !in calls ==> !Eligible(w, req, until, clock)
  }

  /** What dispatch returns, from the calls it made. */
  ghost predicate Concludes(calls: seq<string>, exec: string -> Execution, outcome: Execution)
    requires calls != []
  {
    var e := exec(calls[|calls| - 1]);
    && (forall i :: 0 <= i < |calls| - 1 ==> CanRetry(exec(calls[i])))
    && outcome == if CanRetry(e) then Returned(e.reply.(tried := Some(SetOf(calls)))) else e
  }

  /** The first `n` calls, which ended in a retryable failure, left a mark
      each; every other mark was there before, and a mark that is gone had
      expired when it was read. */
  ghost predicate Marks(start: map<string, real>, until: map<string, real>, calls: seq<string>, n: int,
                        times: Times, ttl: real)
    requires 0 <= n <= |calls|
  {
    && (forall i :: 0 <= i < n ==> calls[i] in until && until[calls[i]] == times.failed(i) + ttl)
    && FromBefore(start, until, SetOf(calls[..n]), times)
  }

  ghost predicate FromBefore(start: map<string, real>, until: map<string, real>, marked: set<string>, times: Times) {
    && (forall id :: id in until && id !in marked ==> id in start && until[id] == start[id])
    && (forall id :: id in start && id !in until ==> ReadExpired(start[id], id, times))
  }

  ghost predicate ReadExpired(until: real, id: string, times: Times) {
    exists r: nat :: until <= times.checks(r)(id)
  }

  /** Both states give the same health answers about untried workers from
      round `r` on. */
  ghost predicate SameHealth(before: map<string, real>, now: map<string, real>, tried: set<string>, r: nat, times: Times) {
    forall id: string, i: nat :: id !in tried && r <= i ==>
      Healthy(now, id, times.checks(i)(id)) == Healthy(before, id, times.checks(i)(id))
  }

  /** The lease table after the calls: a call that raised leaves its lease. */
  function LeasesAfter(leases: map<string, Lease>, task: string, calls: seq<string>, exec: string -> Execution,
                       times: Times, leaseSeconds: real): map<string, Lease>
  {
    if calls == [] then leases
    else
      var k := |calls| - 1;
      if exec(calls[k]).Raised? then
        leases[task := Lease(task, calls[k], times.leased(k) + leaseSeconds, k)]
      else leases - {task}
  }

  datatype Step = NoneLeft | Ran(id: string, execution: Execution)

  // ---------------------------------------------------------------------
  // Health marks and routing
  // ---------------------------------------------------------------------

  /** Only the health answers matter for who fits. */
  lemma FitsAgree(ws: seq<Worker>, req: Request, a: map<string, real>, b: map<string, real>, clock: string -> real)
    requires forall w :: w in ws ==> Healthy(a, w.id, clock(w.id)) == Healthy(b, w.id, clock(w.id))
    ensures Fits(ws, req, a, clock) == Fits(ws, req, b, clock)
  {
    hide Filter, Accepts, HasCapacity, Healthy;
    FilterAgree(ws, Fitting(req, a, clock), Fitting(req, b, clock));
  }

  /** Dropping expired marks changes no answer at that time. */
  lemma SweptFits(ws: seq<Worker>, req: Request, before: map<string, real>, after: map<string, real>, clock: string -> real,
                  among: seq<Worker>)
    requires Sweeps(before, after, ws, |ws|, req, clock)
    ensures Fits(among, req, after, clock) == Fits(among, req, before, clock)
  {
    FitsAgree(among, req, after, before, clock);
  }

  /** Routing in round `r` keeps the agreement with the marks from before,
      under a clock that does not go back. */
  lemma HealthKept(start: map<string, real>, before: map<string, real>, after: map<string, real>,
                   ws: seq<Worker>, tried: set<string>, req: Request, r: nat, times: Times)
    requires Monotone(times) && SameHealth(start, before, tried, r, times)
    requires Sweeps(before, after, ws, |ws|, req, times.checks(r))
    ensures SameHealth(start, after, tried, r, times) && SameHealth(start, after, tried, r + 1, times)
  {
    forall id: string, i: nat | id !in tried && r <= i
      ensures Healthy(after, id, times.checks(i)(id)) == Healthy(start, id, times.checks(i)(id))
    {
      assert Healthy(before, id, times.checks(i)(id)) == Healthy(start, id, times.checks(i)(id));
      assert times.checks(r)(id) <= times.checks(i)(id);
    }
  }

  lemma HealthMarked(start: map<string, real>, before: map<string, real>, after: map<string, real>,
                     tried: set<string>, r: nat, times: Times, id: string, t: real)
    requires SameHealth(start, before, tried, r, times) && after == before[id := t]
    ensures SameHealth(start, after, tried + {id}, r, times)
  {
    forall other: string, i: nat | other !in tried + {id} && r <= i
      ensures Healthy(after, other, times.checks(i)(other)) == Healthy(start, other, times.checks(i)(other))
    {
      assert Healthy(before, other, times.checks(i)(other)) == Healthy(start, other, times.checks(i)(other));
    }
  }

  /** A routing finds no worker exactly if none fits, and otherwise picks one. */
  lemma RoutedPicks(d: Decision, ws: seq<Worker>, req: Request, before: map<string, real>, after: map<string, real>,
                    clock: string -> real)
    requires Routed(d, ws, req, before, after, clock)
    ensures Sweeps(before, after, ws, |ws|, req, clock)
    ensures d.chosen.None? <==> Fits(ws, req, before, clock) == []
    ensures d.reason.NoWorker? || d.reason.NoCapacity? <==> Fits(ws, req, before, clock) == []
    ensures d.chosen.Some? ==> Picks(ws, req, before, clock, d.chosen.value)
  {
    hide Sweeps, Fits, AnyLocal, AnyInRegion, Local;
  }

  lemma PickedIn(ws: seq<Worker>, tried: set<string>, req: Request, until: map<string, real>, clock: string -> real, id: string)
    requires Picks(Untried(ws, tried), req, until, clock, id)
    ensures id !in tried && id in Ids(ws)
  {
    hide Filter, AnyLocal, AnyInRegion, Local;
    var fits := Fits(Untried(ws, tried), req, until, clock);
    var i :| Preferred(fits, req, i) && fits[i].id == id;
    FilterMember(Untried(ws, tried), Fitting(req, until, clock));
    assert fits[i] in fits;
    UntriedMember(ws, tried);
    var k :| 0 <= k < |ws| && ws[k] == fits[i];
    assert Ids(ws)[k] == id;
  }

  lemma GreedyIsBest(ws: seq<Worker>, req: Request, until: map<string, real>, times: Times, calls: seq<string>)
    requires Greedy(ws, req, until, times, calls)
    ensures forall i :: 0 <= i < |calls| ==> BestOfRest(ws, req, until, times, calls, i)
  {
    hide Fits, Preferred, ChosenAt, Untried, SetOf;
    forall i | 0 <= i < |calls| ensures BestOfRest(ws, req, until, times, calls, i) {
      assert Picks(Untried(ws, SetOf(calls[..i])), req, until, times.checks(i), calls[i]);
      PickIsBest(ws, req, until, times, calls, i);
    }
  }

  lemma PickIsBest(ws: seq<Worker>, req: Request, until: map<string, real>, times: Times, calls: seq<string>, i: nat)
    requires i < |calls| && Picks(Untried(ws, SetOf(calls[..i])), req, until, times.checks(i), calls[i])
    ensures BestOfRest(ws, req, until, times, calls, i)
  {
    hide Fits, AnyLocal, AnyInRegion, Local, ChosenAt, Untried, SetOf;
    var tried, clock := SetOf(calls[..i]), times.checks(i);
    var k :| Preferred(Fits(Untried(ws, tried), req, until, clock), req, k)
             && Fits(Untried(ws, tried), req, until, clock)[k].id == calls[i];
    var n := PreferredIsChosen(ws, tried, req, until, clock, k);
  }

  lemma NobodyFits(ws: seq<Worker>, req: Request, until: map<string, real>, clock: string -> real, calls: seq<string>)
    ensures NobodyLeft(ws, req, until, clock, calls) <==> Fits(Untried(ws, SetOf(calls)), req, until, clock) == []
    ensures NobodyLeft(ws, req, until, clock, []) <==> Fits(ws, req, until, clock) == []
  {
    hide Fits, Eligible, Untried;
    FitsAreCandidates(ws, SetOf(calls), req, until, clock);
    assert forall w :: Candidate(w, SetOf(calls), req, until, clock) <==> w.id !in calls && Eligible(w, req, until, clock);
    FitsAreCandidates(ws, {}, req, until, clock);
    UntriedAll(ws, {});
    assert forall w :: Candidate(w, {}, req, until, clock) <==> Eligible(w, req, until, clock);
  }

  /** Distinct calls to registered workers are no more than the workers. */
  lemma {:induction false} FewCalls(calls: seq<string>, ids: seq<string>)
    requires NoneTwice(calls) && forall c :: c in calls ==> c in ids
    ensures |calls| <= |ids|
  {
    SetOfSize(calls);
    SetOfSize(ids);
    assert SetOf(calls) <= SetOf(ids);
    SubsetSize(SetOf(calls), SetOf(ids));
  }

  lemma {:induction false} SetOfSize(s: seq<string>)
    ensures |SetOf(s)| <= |s|
    ensures NoneTwice(s) ==> |SetOf(s)| == |s|
  {
    if s != [] {
      SetOfSize(s[1..]);
      assert s == [s[0]] + s[1..];
      assert SetOf(s) == SetOf(s[1..]) + {s[0]};
      hide SetOf;
      if NoneTwice(s) {
        TailOnce(s);
      }
    }
  }

  lemma TailOnce(s: seq<string>)
    requires s != [] && NoneTwice(s)
    ensures NoneTwice(s[1..]) && s[0] !in SetOf(s[1..])
  {
    assert forall j :: 0 <= j < |s| - 1 ==> s[1..][j] == s[j + 1];
  }

  lemma SubsetSize(a: set<string>, b: set<string>)
    requires a <= b
    ensures |a| <= |b|
  {
    assert b == a + (b - a);
    assert |b| == |a| + |b - a|;
  }

  // ---------------------------------------------------------------------
  // The dispatch loop
  // ---------------------------------------------------------------------

  lemma {:induction false} Appended(calls: seq<string>, id: string)
    ensures SetOf(calls + [id]) == SetOf(calls) + {id}
    ensures id !in SetOf(calls) && NoneTwice(calls) ==> NoneTwice(calls + [id])
  {
    var next := calls + [id];
    assert forall i :: 0 <= i < |calls| ==> next[i] == calls[i];
  }

  lemma PicksAgree(ws: seq<Worker>, req: Request, a: map<string, real>, b: map<string, real>, clock: string -> real, id: string)
    requires Fits(ws, req, a, clock) == Fits(ws, req, b, clock) && Picks(ws, req, a, clock, id)
    ensures Picks(ws, req, b, clock, id)
  {
  }

  /** A call picked under the present marks is the one the marks from before
      the dispatch pick, under a clock that does not go back. */
  lemma GreedyNext(ws: seq<Worker>, req: Request, start: map<string, real>, now: map<string, real>, times: Times,
                   calls: seq<string>, id: string)
    requires Greedy(ws, req, start, times, calls)
    requires SameHealth(start, now, SetOf(calls), |calls|, times)
    requires Picks(Untried(ws, SetOf(calls)), req, now, times.checks(|calls|), id)
    ensures Greedy(ws, req, start, times, calls + [id])
  {
    hide Filter, Picks, Healthy;
    var next := calls + [id];
    var untried := Untried(ws, SetOf(calls));
    UntriedMember(ws, SetOf(calls));
    FitsAgree(untried, req, now, start, times.checks(|calls|));
    PicksAgree(untried, req, now, start, times.checks(|calls|), id);
    forall i | 0 <= i < |next|
      ensures Picks(Untried(ws, SetOf(next[..i])), req, start, times.checks(i), next[i])
    {
      if i < |calls| {
        assert next[..i] == calls[..i] && next[i] == calls[i];
      } else {
        assert next[..i] == calls;
      }
    }
  }

  /** A sweep over untried workers leaves the marks of tried ones. */
  lemma MarksSwept(ws: seq<Worker>, tried: set<string>, req: Request, start: map<string, real>, before: map<string, real>,
                   after: map<string, real>, r: nat, calls: seq<string>, times: Times, ttl: real)
    requires Sweeps(before, after, Untried(ws, tried), |Untried(ws, tried)|, req, times.checks(r))
    requires Marks(start, before, calls, |calls|, times, ttl) && tried == SetOf(calls)
    ensures Marks(start, after, calls, |calls|, times, ttl)
  {
    hide Filter, Accepts, FromBefore;
    var untried := Untried(ws, tried);
    UntriedMember(ws, tried);
    assert calls[..|calls|] == calls;
    forall id | id in tried && id in before ensures id in after {
      forall k | 0 <= k < |untried| ensures untried[k].id != id {
        assert untried[k] in untried;
      }
      assert !Checked(untried, |untried|, req, id);
    }
    assert forall i :: 0 <= i < |calls| ==> calls[i] in tried;
    FromBeforeSwept(start, before, after, untried, req, r, tried, times);
  }

  lemma FromBeforeSwept(start: map<string, real>, before: map<string, real>, after: map<string, real>, ws: seq<Worker>,
                        req: Request, r: nat, marked: set<string>, times: Times)
    requires FromBefore(start, before, marked, times) && Sweeps(before, after, ws, |ws|, req, times.checks(r))
    requires forall id :: id in marked && id in before ==> id in after
    ensures FromBefore(start, after, marked, times)
  {
    hide Checked;
    forall id | id in start && id !in after ensures ReadExpired(start[id], id, times) {
      if id in before {
        assert before[id] == start[id];
        assert start[id] <= times.checks(r)(id);
      }
    }
  }

  lemma MarksNext(start: map<string, real>, now: map<string, real>, calls: seq<string>, id: string, times: Times, ttl: real)
    requires Marks(start, now, calls, |calls|, times, ttl) && id !in SetOf(calls)
    ensures Marks(start, now[id := times.failed(|calls|) + ttl], calls + [id], |calls| + 1, times, ttl)
  {
    hide ReadExpired;
    var next, marks := calls + [id], now[id := times.failed(|calls|) + ttl];
    assert calls[..|calls|] == calls && next[..|calls| + 1] == next;
    assert SetOf(next) == SetOf(calls) + {id};
    forall i | 0 <= i < |next| ensures next[i] in marks && marks[next[i]] == times.failed(i) + ttl {
      if i < |calls| {
        assert next[i] == calls[i] && calls[i] in SetOf(calls);
      }
    }
  }

  /** The calls so far all failed and can be retried; the state follows. */
  ghost predicate Going(ws: seq<Worker>, workers: seq<Worker>, req: Request, start: map<string, real>,
                        now: map<string, real>, exec: string -> Execution, times: Times, ttl: real,
                        calls: seq<string>)
  {
    && SameWorkers(ws, workers)
    && Untried(workers, SetOf(calls)) == Untried(ws, SetOf(calls))
    && NoneTwice(calls) && (forall c :: c in calls ==> c in Ids(ws))
    && (forall i :: 0 <= i < |calls| ==> CanRetry(exec(calls[i])))
    && (Monotone(times) ==> Greedy(ws, req, start, times, calls) && SameHealth(start, now, SetOf(calls), |calls|, times))
    && Marks(start, now, calls, |calls|, times, ttl)
  }

  lemma StartsGoing(ws: seq<Worker>, req: Request, start: map<string, real>, exec: string -> Execution,
                    times: Times, ttl: real)
    requires Distinct(ws)
    ensures Going(ws, ws, req, start, start, exec, times, ttl, [])
  {
    hide Distinct, Filter;
  }

  /** The list of calls with the last answer decides the outcome. */
  lemma Concluded(calls: seq<string>, id: string, exec: string -> Execution)
    requires forall i :: 0 <= i < |calls| ==> CanRetry(exec(calls[i]))
    ensures Concludes(calls + [id], exec,
                      if CanRetry(exec(id)) then Returned(exec(id).reply.(tried := Some(SetOf(calls + [id])))) else exec(id))
  {
    hide CanRetry, SetOf;
    var next := calls + [id];
    assert forall i :: 0 <= i < |calls| ==> next[i] == calls[i];
  }

  /** The lease of the call just made, on top of the calls before it. */
  lemma LeaseOfCall(table: map<string, Lease>, held: map<string, Lease>, task: string, calls: seq<string>, id: string,
                    exec: string -> Execution, times: Times, leaseSeconds: real)
    requires held == if calls == [] then table else table - {task}
    ensures LeasesAfter(table, task, calls + [id], exec, times, leaseSeconds)
         == if exec(id).Raised? then held[task := Lease(task, id, times.leased(|calls|) + leaseSeconds, |calls|)]
            else held - {task}
    ensures held - {task} == table - {task}
  {
  }

  lemma LeaseSoFar(table: map<string, Lease>, task: string, calls: seq<string>, exec: string -> Execution,
                   times: Times, leaseSeconds: real)
    requires calls != [] ==> CanRetry(exec(calls[|calls| - 1]))
    ensures LeasesAfter(table, task, calls, exec, times, leaseSeconds) == if calls == [] then table else table - {task}
  {
  }

  lemma MarksPrefix(start: map<string, real>, now: map<string, real>, calls: seq<string>, id: string, times: Times, ttl: real)
    requires Marks(start, now, calls, |calls|, times, ttl)
    ensures Marks(start, now, calls + [id], |calls|, times, ttl)
  {
    hide FromBefore;
    assert (calls + [id])[..|calls|] == calls == calls[..|calls|];
    assert forall i :: 0 <= i < |calls| ==> (calls + [id])[i] == calls[i];
  }

  /** What holds of the calls of a dispatch, of which the first `failures`
      ended in a retryable failure: nobody is called twice, each call is the
      best choice among the rest, failures leave marks, and the worker table
      keeps its contents. */
  ghost predicate Tried(ws: seq<Worker>, workers: seq<Worker>, req: Request, start: map<string, real>,
                        now: map<string, real>, times: Times, ttl: real, calls: seq<string>, failures: nat)
  {
    && failures <= |calls| <= |ws|
    && SameWorkers(ws, workers)
    && NoneTwice(calls) && (forall c :: c in calls ==> c in Ids(ws))
    && (Monotone(times) ==> Greedy(ws, req, start, times, calls))
    && Marks(start, now, calls, failures, times, ttl)
  }

  lemma TriedMeans(ws: seq<Worker>, workers: seq<Worker>, req: Request, start: map<string, real>,
                   now: map<string, real>, times: Times, ttl: real, calls: seq<string>, failures: nat)
    requires Tried(ws, workers, req, start, now, times, ttl, calls, failures)
    ensures |calls| <= |ws|
    ensures Monotone(times) ==> forall i :: 0 <= i < |calls| ==> BestOfRest(ws, req, start, times, calls, i)
  {
    hide SameWorkers, NoneTwice, Ids, Monotone, Greedy, Marks, BestOfRest;
    if Monotone(times) {
      GreedyIsBest(ws, req, start, times, calls);
    }
  }

  lemma LeasesMean(leases: map<string, Lease>, task: string, calls: seq<string>, exec: string -> Execution,
                   times: Times, leaseSeconds: real)
    ensures LeasesAfter(leases, task, calls, exec, times, leaseSeconds)
         == if calls == [] then leases
            else if exec(calls[|calls| - 1]).Raised? then
              leases[task := Lease(task, calls[|calls| - 1], times.leased(|calls| - 1) + leaseSeconds, |calls| - 1)]
            else leases - {task}
  {
  }

  lemma TriedSoFar(ws: seq<Worker>, workers: seq<Worker>, req: Request, start: map<string, real>,
                   now: map<string, real>, exec: string -> Execution, times: Times, ttl: real, calls: seq<string>)
    requires Going(ws, workers, req, start, now, exec, times, ttl, calls)
    ensures Tried(ws, workers, req, start, now, times, ttl, calls, |calls|)
    ensures calls != [] ==> CanRetry(exec(calls[|calls| - 1]))
    ensures Untried(workers, SetOf(calls)) == Untried(ws, SetOf(calls))
  {
    hide SameWorkers, Filter, CanRetry, Monotone, Greedy, SameHealth, Marks, NoneTwice;
    FewCalls(calls, Ids(ws));
  }

  /** All calls so far failed for now; `last` is the last answer. */
  ghost predicate AllFailed(ws: seq<Worker>, workers: seq<Worker>, req: Request, start: map<string, real>,
                            now: map<string, real>, table: map<string, Lease>, leases: map<string, Lease>,
                            exec: string -> Execution, times: Times, ttl: real, calls: seq<string>, last: Option<Reply>)
  {
    && Going(ws, workers, req, start, now, exec, times, ttl, calls)
    && leases == (if calls == [] then table else table - {req.taskId})
    && (last.None? <==> calls == [])
    && (last.Some? ==> exec(calls[|calls| - 1]) == Returned(last.value)
                       && Concludes(calls, exec, Returned(last.value.(tried := Some(SetOf(calls))))))
  }

  /** The last call ended the dispatch with `e`. */
  ghost predicate Stopped(ws: seq<Worker>, workers: seq<Worker>, req: Request, start: map<string, real>,
                          now: map<string, real>, table: map<string, Lease>, leases: map<string, Lease>,
                          exec: string -> Execution, times: Times, leaseSeconds: real, ttl: real, calls: seq<string>,
                          e: Execution)
  {
    && calls != [] && !CanRetry(e) && Concludes(calls, exec, e)
    && Tried(ws, workers, req, start, now, times, ttl, calls, |calls| - 1)
    && leases == LeasesAfter(table, req.taskId, calls, exec, times, leaseSeconds)
  }

  lemma StoppedMeans(ws: seq<Worker>, workers: seq<Worker>, req: Request, start: map<string, real>,
                     now: map<string, real>, table: map<string, Lease>, leases: map<string, Lease>,
                     exec: string -> Execution, times: Times, leaseSeconds: real, ttl: real, calls: seq<string>, e: Execution)
    requires Stopped(ws, workers, req, start, now, table, leases, exec, times, leaseSeconds, ttl, calls, e)
    ensures calls != [] && !CanRetry(e) && Concludes(calls, exec, e)
    ensures Tried(ws, workers, req, start, now, times, ttl, calls, |calls| - 1)
    ensures leases == LeasesAfter(table, req.taskId, calls, exec, times, leaseSeconds)
  {
    hide Tried, LeasesAfter, Concludes, CanRetry;
  }

  /** Without a further worker, the failures so far are the outcome. */
  lemma AllFailedMeans(ws: seq<Worker>, workers: seq<Worker>, req: Request, start: map<string, real>,
                       now: map<string, real>, table: map<string, Lease>, leases: map<string, Lease>,
                       exec: string -> Execution, times: Times, leaseSeconds: real, ttl: real, calls: seq<string>, last: Option<Reply>)
    requires AllFailed(ws, workers, req, start, now, table, leases, exec, times, ttl, calls, last)
    ensures last.None? <==> calls == []
    ensures leases == LeasesAfter(table, req.taskId, calls, exec, times, leaseSeconds)
    ensures last.Some? ==>
      var e := Returned(last.value.(tried := Some(SetOf(calls))));
      CanRetry(e) && Concludes(calls, exec, e) && Tried(ws, workers, req, start, now, times, ttl, calls, |calls|)
    ensures last.None? ==> Tried(ws, workers, req, start, now, times, ttl, calls, 0)
    ensures Untried(workers, SetOf(calls)) == Untried(ws, SetOf(calls))
  {
    hide Going, Tried, LeasesAfter, Concludes, SetOf, Untried;
    TriedSoFar(ws, workers, req, start, now, exec, times, ttl, calls);
    LeaseSoFar(table, req.taskId, calls, exec, times, leaseSeconds);
  }

  /** What the first routing of a dispatch has shown: while nobody was called
      and none was missing, no mark has changed; without a worker, only marks
      that had expired at the first reading are gone; and a call means that a
      worker was found. */
  ghost predicate FirstRouting(ws: seq<Worker>, req: Request, start: map<string, real>, now: map<string, real>,
                               calls: seq<string>, noneLeft: bool, times: Times)
  {
    && (calls == [] && !noneLeft ==> now == start)
    && (calls == [] && noneLeft ==>
          Fits(ws, req, start, times.checks(0)) == [] && Sweeps(start, now, ws, |ws|, req, times.checks(0)))
    && (calls != [] ==> Fits(ws, req, start, times.checks(0)) != [])
  }

  /** A turn of the loop: `found` tells whether its routing found a worker. */
  lemma FirstRoutingNext(ws: seq<Worker>, workers: seq<Worker>, req: Request, start: map<string, real>,
                         before: map<string, real>, now: map<string, real>, calls: seq<string>, next: seq<string>,
                         found: bool, times: Times)
    requires FirstRouting(ws, req, start, before, calls, false, times)
    requires Untried(workers, SetOf(calls)) == Untried(ws, SetOf(calls))
    requires found <==> Fits(Untried(workers, SetOf(calls)), req, before, times.checks(|calls|)) != []
    requires Sweeps(before, now, Untried(workers, SetOf(calls)), |Untried(workers, SetOf(calls))|, req, times.checks(|calls|))
             || found
    requires if found then next != [] else next == calls
    ensures FirstRouting(ws, req, start, now, next, !found, times)
  {
    hide Untried, Fits, Sweeps;
    if calls == [] {
      NoCalls(calls);
      UntriedAll(ws, {});
    }
  }

  /** Once somebody was called, marks do not matter. */
  lemma FirstRoutingCalled(ws: seq<Worker>, req: Request, start: map<string, real>, before: map<string, real>,
                           now: map<string, real>, calls: seq<string>, times: Times)
    requires calls != []
    requires FirstRouting(ws, req, start, before, calls, false, times)
             || FirstRouting(ws, req, start, before, calls, true, times)
    ensures FirstRouting(ws, req, start, now, calls, true, times)
    ensures FirstRouting(ws, req, start, now, calls, false, times)
  {
    hide Fits, Sweeps;
  }

  lemma SomebodyCalled(ws: seq<Worker>, req: Request, start: map<string, real>, now: map<string, real>,
                       calls: seq<string>, times: Times)
    requires calls != [] && FirstRouting(ws, req, start, now, calls, true, times)
    ensures Fits(ws, req, start, times.checks(0)) != []
  {
    hide Fits, Sweeps;
  }

  lemma FirstRoutingTurn(ws: seq<Worker>, workers: seq<Worker>, req: Request, start: map<string, real>,
                         before: map<string, real>, now: map<string, real>, table: map<string, Lease>,
                         leases: map<string, Lease>, exec: string -> Execution, times: Times, ttl: real,
                         calls: seq<string>, last: Option<Reply>, step: Step)
    requires AllFailed(ws, workers, req, start, before, table, leases, exec, times, ttl, calls, last)
    requires FirstRouting(ws, req, start, before, calls, false, times)
    requires var untried := Untried(workers, SetOf(calls));
      && Sweeps(before, now, untried, |untried|, req, times.checks(|calls|))
      && (step.NoneLeft? <==> Fits(untried, req, before, times.checks(|calls|)) == [])
    ensures FirstRouting(ws, req, start, now, if step.Ran? then calls + [step.id] else calls, step.NoneLeft?, times)
  {
    hide FirstRouting, Untried, Fits, Sweeps, SetOf, Concludes, Marks, Greedy, SameHealth, NoneTwice;
    FirstRoutingNext(ws, workers, req, start, before, now, calls, if step.Ran? then calls + [step.id] else calls,
                     step.Ran?, times);
  }

  lemma FirstRoutingStarts(ws: seq<Worker>, req: Request, start: map<string, real>, times: Times)
    ensures FirstRouting(ws, req, start, start, [], false, times)
  {
  }

  /** Marks that had expired when a first routing found nobody do not change who
      fits at another time: nobody with the right payload and capacity lost his. */
  lemma FitsLater(ws: seq<Worker>, req: Request, before: map<string, real>, after: map<string, real>,
                  first: string -> real, later: string -> real)
    requires Fits(ws, req, before, first) == [] && Sweeps(before, after, ws, |ws|, req, first)
    ensures Fits(ws, req, after, later) == Fits(ws, req, before, later)
  {
    hide Filter, Accepts, HasCapacity, Checked;
    FilterMember(ws, Fitting(req, before, first));
    forall w | w in ws ensures Fitting(req, after, later)(w) == Fitting(req, before, later)(w) {
      assert !Fitting(req, before, first)(w);
    }
    FilterAgree(ws, Fitting(req, after, later), Fitting(req, before, later));
  }

  /** If nobody was called, the marks from before tell both what the first
      routing and what the one that gives the error sees. */
  lemma NobodyCalled(ws: seq<Worker>, req: Request, start: map<string, real>, now: map<string, real>, times: Times)
    requires FirstRouting(ws, req, start, now, [], true, times)
    ensures Fits(ws, req, start, times.checks(0)) == []
    ensures Fits(ws, req, now, times.checks(1)) == Fits(ws, req, start, times.checks(1))
  {
    hide Fits, Sweeps;
    FitsLater(ws, req, start, now, times.checks(0), times.checks(1));
  }

  /** A worker that accepts everything and a task that needs nothing. */
  const LONE := Worker("a", None, {}, Tags(None, None, None, None))
  const TASK := Request("t", "skill", [], None, None)

  lemma OneWorker(ws: seq<Worker>)
    requires Distinct(ws) && LONE in ws && forall i :: 0 <= i < |ws| ==> ws[i].id == LONE.id
    ensures ws == [LONE]
  {
    if |ws| > 1 {
      FirstTwoDiffer(ws);
    }
  }

  lemma FirstTwoDiffer(ws: seq<Worker>)
    requires Distinct(ws) && |ws| > 1
    ensures ws[0].id != ws[1].id
  {
  }

  /** A mark that ends between the first two readings of the clock. */
  lemma MarkRunsOut(until: map<string, real>, times: Times)
    requires "a" in until && times.checks(0)("a") < until["a"] <= times.checks(1)("a")
    ensures NobodyLeft([LONE], TASK, until, times.checks(0), [])
    ensures !NobodyLeft([LONE], TASK, until, times.checks(1), [])
  {
    assert LONE in [LONE];
    assert Eligible(LONE, TASK, until, times.checks(1));
  }

  /** When no untried worker fits, none fits by the marks from before either,
      under a clock that does not go back. */
  lemma NoneLeftBefore(ws: seq<Worker>, workers: seq<Worker>, req: Request, start: map<string, real>,
                       now: map<string, real>, table: map<string, Lease>, leases: map<string, Lease>,
                       exec: string -> Execution, times: Times, ttl: real, calls: seq<string>, last: Option<Reply>)
    requires AllFailed(ws, workers, req, start, now, table, leases, exec, times, ttl, calls, last) && Monotone(times)
    ensures Fits(Untried(ws, SetOf(calls)), req, now, times.checks(|calls|))
         == Fits(Untried(ws, SetOf(calls)), req, start, times.checks(|calls|))
  {
    hide Filter, Healthy, Concludes, Marks, Greedy, SetOf, Monotone;
    var untried := Untried(ws, SetOf(calls));
    UntriedMember(ws, SetOf(calls));
    FitsAgree(untried, req, now, start, times.checks(|calls|));
  }

  lemma NoCalls(calls: seq<string>)
    requires calls == []
    ensures SetOf(calls) == {}
  {
  }

  lemma CanRetryMeans()
    ensures forall e: Execution :: CanRetry(e) <==> e.Returned? && !e.reply.succeeded && e.reply.retryable
  {
  }

  lemma CanRetryIs(e: Execution)
    ensures CanRetry(e) <==> e.Returned? && !e.reply.succeeded && e.reply.retryable
  {
  }

  /** Without calls, one more routing still only drops expired marks. */
  lemma NoMarksYet(ws: seq<Worker>, workers: seq<Worker>, req: Request, start: map<string, real>,
                   before: map<string, real>, now: map<string, real>, times: Times, ttl: real, calls: seq<string>)
    requires Tried(ws, workers, req, start, before, times, ttl, calls, 0)
    requires Sweeps(before, now, workers, |workers|, req, times.checks(1))
    ensures Tried(ws, workers, req, start, now, times, ttl, calls, 0)
  {
    hide SameWorkers, NoneTwice, Ids, Monotone, Greedy, Sweeps, FromBefore;
    assert SetOf(calls[..0]) == {};
    FromBeforeSwept(start, before, now, workers, req, 1, {}, times);
  }

  lemma KeyedPut(leases: map<string, Lease>, l: Lease)
    requires Keyed(leases)
    ensures Keyed(leases[l.taskId := l])
  {
  }

  lemma KeyedDrop(leases: map<string, Lease>, t: string)
    requires Keyed(leases)
    ensures Keyed(leases) && Keyed(leases - {t})
  {
  }

  lemma SameWorkersTrans(a: seq<Worker>, b: seq<Worker>, c: seq<Worker>)
    requires SameWorkers(a, b) && SameWorkers(b, c)
    ensures SameWorkers(a, c)
  {
  }

  /** What one more call keeps, whatever it answers. */
  lemma Called(ws: seq<Worker>, before: seq<Worker>, workers: seq<Worker>, req: Request, start: map<string, real>,
               now: map<string, real>, after: map<string, real>, exec: string -> Execution, times: Times, ttl: real,
               calls: seq<string>, id: string)
    requires Going(ws, before, req, start, now, exec, times, ttl, calls) && SameWorkers(before, workers)
    requires var untried := Untried(before, SetOf(calls));
      Sweeps(now, after, untried, |untried|, req, times.checks(|calls|))
      && Picks(untried, req, now, times.checks(|calls|), id)
    ensures id !in SetOf(calls) && Marks(start, after, calls, |calls|, times, ttl)
    ensures Tried(ws, workers, req, start, after, times, ttl, calls + [id], |calls|)
    ensures Concludes(calls + [id], exec,
                      if CanRetry(exec(id)) then Returned(exec(id).reply.(tried := Some(SetOf(calls + [id])))) else exec(id))
    ensures SetOf(calls + [id]) == SetOf(calls) + {id} && |SetOf(calls)| == |calls|
  {
    hide SameWorkers, Untried, SetOf, NoneTwice, Ids, CanRetry, Monotone, Greedy, SameHealth, Marks, Fits, Picks, Sweeps, Concludes;
    SetOfSize(calls);
    PickedIn(ws, SetOf(calls), req, now, times.checks(|calls|), id);
    Appended(calls, id);
    if Monotone(times) {
      GreedyNext(ws, req, start, now, times, calls, id);
    }
    MarksSwept(ws, SetOf(calls), req, start, now, after, |calls|, calls, times, ttl);
    MarksPrefix(start, after, calls, id, times, ttl);
    SameWorkersTrans(ws, before, workers);
    FewCalls(calls + [id], Ids(ws));
    Concluded(calls, id, exec);
  }

  /** A routing that finds no worker changes nothing that matters. */
  lemma StillGoing(ws: seq<Worker>, before: seq<Worker>, workers: seq<Worker>, req: Request, start: map<string, real>,
                   now: map<string, real>, after: map<string, real>, exec: string -> Execution, times: Times, ttl: real,
                   calls: seq<string>)
    requires Going(ws, before, req, start, now, exec, times, ttl, calls)
    requires SameWorkers(before, workers) && Untried(workers, SetOf(calls)) == Untried(before, SetOf(calls))
    requires var untried := Untried(before, SetOf(calls));
      Sweeps(now, after, untried, |untried|, req, times.checks(|calls|))
    ensures Going(ws, workers, req, start, after, exec, times, ttl, calls)
    ensures Fits(Untried(ws, SetOf(calls)), req, after, times.checks(|calls|))
         == Fits(Untried(before, SetOf(calls)), req, now, times.checks(|calls|))
  {
    hide SameWorkers, Untried, SetOf, NoneTwice, Ids, CanRetry, Monotone, Greedy, SameHealth, Marks, Fits, Picks, Sweeps, Concludes;
    var untried := Untried(before, SetOf(calls));
    SameWorkersTrans(ws, before, workers);
    MarksSwept(ws, SetOf(calls), req, start, now, after, |calls|, calls, times, ttl);
    SweptFits(untried, req, now, after, times.checks(|calls|), untried);
    if Monotone(times) {
      HealthKept(start, now, after, untried, SetOf(calls), req, |calls|, times);
    }
  }

  /** A retryable failure, with its mark, leads to the next turn. */
  lemma GoesOn(ws: seq<Worker>, before: seq<Worker>, workers: seq<Worker>, req: Request, start: map<string, real>,
               now: map<string, real>, after: map<string, real>, exec: string -> Execution, times: Times, ttl: real,
               calls: seq<string>, id: string)
    requires Going(ws, before, req, start, now, exec, times, ttl, calls)
    requires SameWorkers(before, workers) && Untried(workers, SetOf(calls)) == Untried(before, SetOf(calls))
    requires var untried := Untried(before, SetOf(calls));
      Sweeps(now, after, untried, |untried|, req, times.checks(|calls|))
      && Picks(untried, req, now, times.checks(|calls|), id)
    requires CanRetry(exec(id))
    ensures Going(ws, workers, req, start, after[id := times.failed(|calls|) + ttl], exec, times, ttl, calls + [id])
  {
    hide SameWorkers, Untried, SetOf, NoneTwice, Ids, CanRetry, Monotone, Greedy, SameHealth, Marks, Fits, Picks, Sweeps, Concludes;
    Called(ws, before, workers, req, start, now, after, exec, times, ttl, calls, id);
    var next := calls + [id];
    Appended(calls, id);
    SameWorkersTrans(ws, before, workers);
    UntriedMore(ws, SetOf(calls), id);
    UntriedMore(workers, SetOf(calls), id);
    MarksNext(start, after, calls, id, times, ttl);
    if Monotone(times) {
      HealthKept(start, now, after, Untried(before, SetOf(calls)), SetOf(calls), req, |calls|, times);
      HealthMarked(start, after, after[id := times.failed(|calls|) + ttl], SetOf(calls), |calls| + 1, times, id,
                   times.failed(|calls|) + ttl);
    }
    forall i | 0 <= i < |next| ensures CanRetry(exec(next[i])) {
      if i < |calls| {
        assert next[i] == calls[i];
      }
    }
  }

  // ---------------------------------------------------------------------
  // Every run of the lease table
  // ---------------------------------------------------------------------

  datatype LeaseEvent =
    | Acquire(lease: Lease)
    | Release(taskId: string)
    | Reclaim(clock: string -> real)

  /** The leases a sweep at the given readings leaves. */
  function Unexpired(leases: map<string, Lease>, clock: string -> real): map<string, Lease> {
    map t | t in leases && clock(t) < leases[t].expiresAt :: leases[t]
  }

  function Apply(leases: map<string, Lease>, e: LeaseEvent): map<string, Lease> {
    match e
    case Acquire(l) => leases[l.taskId := l]
    case Release(t) => leases - {t}
    case Reclaim(clock) => Unexpired(leases, clock)
  }

  function ApplyAll(leases: map<string, Lease>, events: seq<LeaseEvent>): map<string, Lease>
    decreases |events|
  {
    if events == [] then leases else ApplyAll(Apply(leases, events[0]), events[1..])
  }

  lemma {:induction false} ApplyConcat(leases: map<string, Lease>, a: seq<LeaseEvent>, b: seq<LeaseEvent>)
    ensures ApplyAll(leases, a + b) == ApplyAll(ApplyAll(leases, a), b)
    decreases |a|
  {
    if a == [] {
      assert a + b == b;
    } else {
      assert (a + b)[0] == a[0] && (a + b)[1..] == a[1..] + b;
      ApplyConcat(Apply(leases, a[0]), a[1..], b);
    }
  }

  /** Every lease stands under its own task in every run. */
  lemma {:induction false} AlwaysKeyed(leases: map<string, Lease>, events: seq<LeaseEvent>)
    requires Keyed(leases)
    ensures Keyed(ApplyAll(leases, events))
    decreases |events|
  {
    if events != [] {
      AlwaysKeyed(Apply(leases, events[0]), events[1..]);
    }
  }

  /** The event can take the lease `l` of task `t` out of the table: it is
      released, found expired, or replaced by another dispatch of the task. */
  predicate Ends(e: LeaseEvent, t: string, l: Lease) {
    match e
    case Acquire(other) => other.taskId == t
    case Release(task) => task == t
    case Reclaim(clock) => l.expiresAt <= clock(t)
  }

  /** A lease that is gone at the end of a run was released, found expired, or
      replaced by another dispatch of its own task. */
  lemma {:induction false} LeaseLeaves(leases: map<string, Lease>, events: seq<LeaseEvent>, t: string)
    requires t in leases
    ensures (t in ApplyAll(leases, events) && ApplyAll(leases, events)[t] == leases[t])
      || exists i :: 0 <= i < |events| && Ends(events[i], t, leases[t])
    decreases |events|
  {
    if events != [] && !Ends(events[0], t, leases[t]) {
      LeaseLeaves(Apply(leases, events[0]), events[1..], t);
      if i :| 0 <= i < |events[1..]| && Ends(events[1..][i], t, leases[t]) {
        assert events[i + 1] == events[1..][i];
      }
    }
  }

  /** A call is leased, and released unless it raised. */
  function CallEvents(lease: Lease, e: Execution): seq<LeaseEvent> {
    if e.Raised? then [Acquire(lease)] else [Acquire(lease), Release(lease.taskId)]
  }

  lemma CallApplied(leases: map<string, Lease>, lease: Lease, e: Execution)
    ensures ApplyAll(leases, CallEvents(lease, e))
         == if e.Raised? then leases[lease.taskId := lease] else leases - {lease.taskId}
  {
    assert leases[lease.taskId := lease] - {lease.taskId} == leases - {lease.taskId};
    var held := leases[lease.taskId := lease];
    var events := CallEvents(lease, e);
    assert ApplyAll(leases, events) == ApplyAll(held, events[1..]);
    if !e.Raised? {
      var rest := [Release(lease.taskId)];
      assert events[1..] == rest && rest[1..] == [];
      assert ApplyAll(held, rest) == held - {lease.taskId};
    }
  }

  /** The events of one dispatch. */
  function EventsOf(task: string, calls: seq<string>, exec: string -> Execution, times: Times,
                    leaseSeconds: real): seq<LeaseEvent>
  {
    if calls == [] then []
    else
      var k := |calls| - 1;
      EventsOf(task, calls[..k], exec, times, leaseSeconds)
      + CallEvents(Lease(task, calls[k], times.leased(k) + leaseSeconds, k), exec(calls[k]))
  }

  /** The lease table after a dispatch is the one its events lead to. */
  lemma {:induction false} DispatchIsRun(leases: map<string, Lease>, task: string, calls: seq<string>,
                                         exec: string -> Execution, times: Times, leaseSeconds: real)
    requires forall i :: 0 <= i < |calls| - 1 ==> !exec(calls[i]).Raised?
    ensures LeasesAfter(leases, task, calls, exec, times, leaseSeconds)
         == ApplyAll(leases, EventsOf(task, calls, exec, times, leaseSeconds))
  {
    hide Apply, CallEvents;
    if calls != [] {
      var k := |calls| - 1;
      var rest := calls[..k];
      var lease := Lease(task, calls[k], times.leased(k) + leaseSeconds, k);
      assert calls == rest + [calls[k]];
      DispatchIsRun(leases, task, rest, exec, times, leaseSeconds);
      hide ApplyAll;
      var held := if rest == [] then leases else leases - {task};
      assert held == LeasesAfter(leases, task, rest, exec, times, leaseSeconds);
      LeaseOfCall(leases, held, task, rest, calls[k], exec, times, leaseSeconds);
      var before := EventsOf(task, rest, exec, times, leaseSeconds);
      CallApplied(held, lease, exec(calls[k]));
      ApplyConcat(leases, before, CallEvents(lease, exec(calls[k])));
      assert EventsOf(task, calls, exec, times, leaseSeconds) == before + CallEvents(lease, exec(calls[k]));
    }
  }

  // ---------------------------------------------------------------------
  // Every run of the health marks
  // ---------------------------------------------------------------------

  datatype HealthEvent = Mark(id: string, until: real) | Ask(id: string, at: real)

  /** The answers of a server that drops an expired mark when it meets one. */
  function Answers(marks: map<string, real>, events: seq<HealthEvent>): seq<bool>
    decreases |events|
  {
    if events == [] then []
    else match events[0]
         case Mark(id, until) => Answers(marks[id := until], events[1..])
         case Ask(id, at) =>
           var healthy := Healthy(marks, id, at);
           [healthy] + Answers(if healthy then marks - {id} else marks, events[1..])
  }

  /** The answers of a server that never drops a mark. */
  function AnswersKeeping(marks: map<string, real>, events: seq<HealthEvent>): seq<bool>
    decreases |events|
  {
    if events == [] then []
    else match events[0]
         case Mark(id, until) => AnswersKeeping(marks[id := until], events[1..])
         case Ask(id, at) => [Healthy(marks, id, at)] + AnswersKeeping(marks, events[1..])
  }

  /** The questions are asked at times from `now` on that never go back. */
  predicate Forward(events: seq<HealthEvent>, now: real) {
    events != [] ==>
      if events[0].Ask? then now <= events[0].at && Forward(events[1..], events[0].at)
      else Forward(events[1..], now)
  }

  /** Both tables answer alike from `now` on. */
  ghost predicate Alike(a: map<string, real>, b: map<string, real>, now: real) {
    forall id: string, t: real :: now <= t ==> Healthy(a, id, t) == Healthy(b, id, t)
  }

  /** Dropping expired marks is invisible in every run whose clock does not go
      back. */
  lemma {:induction false} DroppingIsInvisible(a: map<string, real>, b: map<string, real>, events: seq<HealthEvent>, now: real)
    requires Forward(events, now) && Alike(a, b, now)
    ensures Answers(a, events) == AnswersKeeping(b, events)
    decreases |events|
  {
    if events != [] {
      match events[0] {
        case Mark(id, until) =>
          AlikeMarked(a, b, now, id, until);
          DroppingIsInvisible(a[id := until], b[id := until], events[1..], now);
        case Ask(id, at) =>
          var healthy := Healthy(a, id, at);
          var left := if healthy then a - {id} else a;
          forall other: string, t: real | at <= t ensures Healthy(left, other, t) == Healthy(b, other, t) {
            assert Healthy(a, other, t) == Healthy(b, other, t);
          }
          DroppingIsInvisible(left, b, events[1..], at);
      }
    }
  }

  lemma AlikeMarked(a: map<string, real>, b: map<string, real>, now: real, id: string, until: real)
    requires Alike(a, b, now)
    ensures Alike(a[id := until], b[id := until], now)
  {
    var x, y := a[id := until], b[id := until];
    forall other: string, t: real | now <= t ensures Healthy(x, other, t) == Healthy(y, other, t) {
      assert Healthy(a, other, t) == Healthy(b, other, t);
    }
  }

  /** With a clock that goes back from `first` to `second` the drop shows
      exactly when the mark ends between the two. */
  lemma DropShowsExactly(id: string, until: real, first: real, second: real)
    ensures Answers(map[id := until], [Ask(id, first), Ask(id, second)])
         == AnswersKeeping(map[id := until], [Ask(id, first), Ask(id, second)])
       <==> !(second < until <= first)
  {
    var marks := map[id := until];
    var left := if Healthy(marks, id, first) then marks - {id} else marks;
    var e, rest := [Ask(id, first), Ask(id, second)], [Ask(id, second)];
    assert e[1..] == rest && rest[1..] == [];
    assert Answers(left, rest) == [Healthy(left, id, second)];
    assert AnswersKeeping(marks, rest) == [Healthy(marks, id, second)];
    assert Answers(marks, e)[1] == Healthy(left, id, second);
    assert AnswersKeeping(marks, e)[1] == Healthy(marks, id, second);
  }
}
