// The CAFE central server: worker table, health marks, dispatch with retries
// and leases (src/geonexus/cafe/central.py).
module Central {
  import opened Wrappers
  import opened Filters
  import opened Routing
  import opened Dispatching
  import Resource

  // ---------------------------------------------------------------------
  // The server
  // ---------------------------------------------------------------------

  class CentralServer {
    var workers: seq<Worker>
    var unhealthyUntil: map<string, real>
    var leases: map<string, Lease>
    const unhealthyTtl: real

    ghost predicate Valid()
      reads this
      ensures Valid() <==> Distinct(workers) && Keyed(leases)
    {
      Distinct(workers) && Keyed(leases)
    }

    constructor (ttl: real)
      ensures Valid() && workers == [] && unhealthyUntil == map[] && leases == map[] && unhealthyTtl == ttl
    {
      workers, unhealthyUntil, leases, unhealthyTtl := [], map[], map[], ttl;
    }

    /** Registering under a known id replaces that worker where it stands; a
        new id is added at the end. */
    method RegisterWorker(w: Worker)
      requires Valid()
      modifies `workers
      ensures Valid() && w in workers
      ensures forall v :: v in workers && v.id != w.id <==> v in old(workers) && v.id != w.id
      ensures old(Ids(workers)) <= Ids(workers)
    {
      var k := 0;
      while k < |workers| && workers[k].id != w.id
        invariant 0 <= k <= |workers|
        invariant forall j :: 0 <= j < k ==> workers[j].id != w.id
      {
        k := k + 1;
      }
      if k < |workers| {
        Replaced(workers, k, w);
        workers := workers[k := w];
      } else {
        Added(workers, w);
        workers := workers + [w];
      }
    }

    lemma Replaced(ws: seq<Worker>, k: nat, w: Worker)
      requires Distinct(ws) && k < |ws| && ws[k].id == w.id
      ensures Distinct(ws[k := w]) && w in ws[k := w] && Ids(ws) == Ids(ws[k := w])
      ensures forall v :: v in ws[k := w] && v.id != w.id <==> v in ws && v.id != w.id
    {
      var now := ws[k := w];
      assert now[k] == w;
      forall v | v in ws && v.id != w.id ensures v in now {
        var j :| 0 <= j < |ws| && ws[j] == v;
        assert now[j] == v;
      }
    }

    lemma Added(ws: seq<Worker>, w: Worker)
      requires Distinct(ws) && forall j :: 0 <= j < |ws| ==> ws[j].id != w.id
      ensures Distinct(ws + [w]) && w in ws + [w] && Ids(ws) <= Ids(ws + [w])
      ensures forall v :: v in ws + [w] && v.id != w.id <==> v in ws && v.id != w.id
    {
    }

    /** A failed worker is out until the mark ends, whatever mark it had before;
        no answer about another worker changes. */
    method MarkUnhealthy(id: string, now: real, ttl: Option<real>)
      modifies `unhealthyUntil
      ensures unhealthyUntil == old(unhealthyUntil)[id := now + if ttl.Some? then ttl.value else unhealthyTtl]
      ensures forall t :: Healthy(unhealthyUntil, id, t) <==> now + (if ttl.Some? then ttl.value else unhealthyTtl) <= t
      ensures forall other, t :: other != id ==>
        Healthy(unhealthyUntil, other, t) == Healthy(old(unhealthyUntil), other, t)
    {
      unhealthyUntil := unhealthyUntil[id := now + if ttl.Some? then ttl.value else unhealthyTtl];
    }

    /** An expired mark is dropped while answering. */
    method IsHealthy(id: string, now: real) returns (healthy: bool)
      modifies `unhealthyUntil
      ensures healthy <==> Healthy(old(unhealthyUntil), id, now)
      ensures unhealthyUntil == if healthy then old(unhealthyUntil) - {id} else old(unhealthyUntil)
    {
      if id !in unhealthyUntil {
        assert unhealthyUntil == unhealthyUntil - {id};
        return true;
      }
      if unhealthyUntil[id] <= now {
        unhealthyUntil := unhealthyUntil - {id};
        return true;
      }
      return false;
    }

    /** The first loop of `route`: payload and health. */
    method FilterWorkers(req: Request, clock: string -> real)
      returns (capable: seq<Worker>, excluded: map<string, Verdict>)
      requires Valid()
      modifies `unhealthyUntil
      ensures capable == Filter(workers, Capable(req, old(unhealthyUntil), clock))
      ensures ExcludesUpTo(excluded, workers, |workers|, req, old(unhealthyUntil), clock, true)
      ensures Sweeps(old(unhealthyUntil), unhealthyUntil, workers, |workers|, req, clock)
    {
      ghost var until := unhealthyUntil;
      capable, excluded := [], map[];
      assert capable == Filter(workers[..0], Capable(req, until, clock));
      assert ExcludesUpTo(excluded, workers, 0, req, until, clock, true);
      assert Sweeps(until, until, workers, 0, req, clock);
      hide *;
      var k := 0;
      while k < |workers|
        invariant 0 <= k <= |workers|
        invariant capable == Filter(workers[..k], Capable(req, until, clock))
        invariant ExcludesUpTo(excluded, workers, k, req, until, clock, true)
        invariant Sweeps(until, unhealthyUntil, workers, k, req, clock)
      {
        var w := workers[k];
        ghost var marks, out := unhealthyUntil, excluded;
        StillMarked(until, marks, workers, k, req, clock, clock(w.id));
        var verdict := Fit;
        if !Accepts(w, req) {
          verdict := Refused;
        } else {
          var healthy := IsHealthy(w.id, clock(w.id));
          if !healthy {
            verdict := Degraded;
          }
        }
        if verdict != Fit {
          excluded := excluded[w.id := verdict];
        } else {
          capable := capable + [w];
        }
        FilterNext(workers, k, Capable(req, until, clock));
        EarlyVerdict(w, req, until, clock, verdict);
        ExcludeNext(out, excluded, workers, k, req, until, clock, true);
        SweepNext(until, marks, unhealthyUntil, workers, k, req, clock);
        k := k + 1;
      }
      assert workers[..k] == workers;
    }

    /** `_capacity_ok`: a single-node match, in lenient mode. */
    static method CapacityOk(w: Worker, req: Request) returns (ok: bool)
      ensures ok <==> HasCapacity(w, req)
    {
      hide Resource.Meets;
      if req.need.None? {
        return true;
      }
      var match_, _ := Resource.MatchResource(req.need, [CapacityOf(w)], false);
      ok := match_.matched;
    }

    static method CountInputs(w: Worker, req: Request) returns (local: nat)
      ensures local == |set k | 0 <= k < |req.inputs| && req.inputs[k] in w.assets :: Slot(k)|
    {
      local := 0;
      var i := 0;
      ghost var held: set<Slot> := {};
      while i < |req.inputs|
        invariant 0 <= i <= |req.inputs|
        invariant held == set k | 0 <= k < i && req.inputs[k] in w.assets :: Slot(k)
        invariant local == |held|
      {
        if req.inputs[i] in w.assets {
          local, held := local + 1, held + {Slot(i)};
        }
        i := i + 1;
      }
    }

    /** The second loop of `route`: locality and capacity. */
    static method ScoreWorkers(capable: seq<Worker>, req: Request, early: map<string, Verdict>)
      returns (scored: seq<Scored>, excluded: map<string, Verdict>)
      requires Distinct(capable) && forall w :: w in capable ==> w.id !in early
      ensures Map(scored, WorkerOf) == Filter(capable, HasRoom(req)) && ScoresRight(scored, req)
      ensures GrownBy(early, excluded, capable, |capable|, req)
    {
      scored, excluded := [], early;
      assert Scoring(scored, capable, 0, req);
      assert GrownBy(early, excluded, capable, 0, req);
      hide *;
      var k := 0;
      while k < |capable|
        invariant 0 <= k <= |capable|
        invariant Scoring(scored, capable, k, req) && GrownBy(early, excluded, capable, k, req)
      {
        var w := capable[k];
        assert w in capable;
        var local := CountInputs(w, req);
        var ok := CapacityOk(w, req);
        ScoreNext(scored, capable, k, req);
        ghost var out := excluded;
        if !ok {
          excluded := excluded[w.id := TooSmall];
        } else {
          scored := scored + [Scored(local, w)];
        }
        GrownNext(early, out, excluded, capable, k, req);
        k := k + 1;
      }
      ScoringDone(scored, capable, req);
    }

    /** Every worker is a candidate or is excluded for its verdict, the chosen
        worker is the preferred one, and only expired marks are dropped. */
    method Route(req: Request, clock: string -> real) returns (d: Decision)
      requires Valid()
      modifies `unhealthyUntil
      ensures Valid()
      ensures Routed(d, workers, req, old(unhealthyUntil), unhealthyUntil, clock)
      ensures RoutesRight(d, workers, req, old(unhealthyUntil), clock)
      ensures InTurn(d.candidates, workers, req, old(unhealthyUntil), clock)
      // No worker at all is another reason than no worker with the capacity.
      ensures d.reason == NoWorker <==>
        forall w :: w in workers ==> (w.kinds.Some? && req.kind !in w.kinds.value)
                                     || (w.id in old(unhealthyUntil) && clock(w.id) < old(unhealthyUntil)[w.id])
    {
      hide *;
      ghost var until := unhealthyUntil;
      NobodyCapable(workers, req, until, clock);
      var capable, early := FilterWorkers(req, clock);
      FitsAreCapableWithRoom(workers, req, until, clock);
      FilterDistinct(workers, Capable(req, until, clock));
      FilterDistinct(capable, HasRoom(req));
      forall w | w in capable ensures w.id !in early {
        var j :| 0 <= j < |capable| && capable[j] == w;
        CapableNotListed(workers, capable, j, early, req, until, clock);
      }
      if capable == [] {
        d := Decision(None, [], NoWorker, early);
        FilterAll(capable, HasRoom(req));
        NobodyChosen(d, req);
        NobodyInTurn(workers, req, until, clock);
        GrownStarts(early, capable, req);
        GrownIsFull(early, early, workers, capable, req, until, clock);
        IsRouted(d, workers, req, until, unhealthyUntil, clock);
        RoutedIsRight(d, workers, req, until, unhealthyUntil, clock);
        return;
      }
      var scored, excluded := ScoreWorkers(capable, req, early);
      GrownIsFull(early, excluded, workers, capable, req, until, clock);
      FitsRise(workers, scored, req, until, clock);
      ghost var list;
      d, list := Choose(scored, req, excluded, PlaceIn(workers));
      RankedInTurn(list, scored, workers, req, until, clock);
      IsRouted(d, workers, req, until, unhealthyUntil, clock);
      RoutedIsRight(d, workers, req, until, unhealthyUntil, clock);
    }

    /** Routing without the workers already tried: they are popped and put
        back, so the contents stay while the order may change; the order of
        the untried workers does not. */
    method RouteExcluding(req: Request, attempted: set<string>, clock: string -> real) returns (d: Decision)
      requires Valid()
      modifies `workers, `unhealthyUntil
      ensures Valid() && SameWorkers(old(workers), workers)
      ensures Untried(workers, attempted) == Untried(old(workers), attempted)
      ensures Routed(d, Untried(old(workers), attempted), req, old(unhealthyUntil), unhealthyUntil, clock)
    {
      hide *;
      ghost var all := workers;
      SameSelf(workers);
      if attempted == {} {
        UntriedAll(workers, attempted);
        d := Route(req, clock);
        return;
      }
      var saved: seq<Worker> := [];
      var left := attempted;
      assert attempted - left == {};
      UntriedAll(workers, {});
      assert workers + saved == workers;
      while left != {}
        invariant left <= attempted
        invariant workers == Untried(all, attempted - left)
        invariant SameWorkers(all, workers + saved)
        invariant forall w :: w in saved ==> w.id in attempted
        invariant leases == old(leases) && unhealthyUntil == old(unhealthyUntil)
        decreases left
      {
        var id :| id in left;
        UntriedMore(all, attempted - left, id);
        assert attempted - (left - {id}) == (attempted - left) + {id};
        left := left - {id};
        Pop(all, saved, id);
        saved := saved + Filter(workers, Named(id));
        workers := Untried(workers, {id});
      }
      assert attempted - left == attempted;
      ghost var rest := workers;
      PartDistinct(all, workers, saved);
      d := Route(req, clock);
      RestoreKeepsUntried(all, attempted, saved);
      workers := workers + saved;
    }

    /** What popping one id does to the table and the saved list. */
    lemma Pop(all: seq<Worker>, saved: seq<Worker>, id: string)
      requires SameWorkers(all, workers + saved)
      ensures SameWorkers(all, Untried(workers, {id}) + (saved + Filter(workers, Named(id))))
      ensures forall w :: w in Filter(workers, Named(id)) ==> w.id == id
    {
      hide Filter, SameWorkers;
      FilterMember(workers, Named(id));
      var there := Filter(workers, Named(id));
      if there == [] {
        forall w | w in workers ensures w.id !in {id} {
          assert !Named(id)(w);
        }
        UntriedAll(workers, {id});
        assert saved + there == saved;
      } else {
        assert there[0] in there;
        PartDistinct(all, workers, saved);
        OnlyHit(workers, saved, id, there[0]);
        PopKeeps(all, workers, saved, id, there[0]);
      }
    }

    /** One turn of the dispatch loop up to the end of `worker.execute`. */
    method Round(req: Request, attempted: set<string>, r: nat, exec: string -> Execution,
                 times: Times, leaseSeconds: real) returns (step: Step)
      requires Valid()
      modifies `workers, `unhealthyUntil, `leases
      ensures Valid() && SameWorkers(old(workers), workers)
      ensures Untried(workers, attempted) == Untried(old(workers), attempted)
      ensures var ws := Untried(old(workers), attempted);
        && Sweeps(old(unhealthyUntil), unhealthyUntil, ws, |ws|, req, times.checks(r))
        && (step.NoneLeft? <==> Fits(ws, req, old(unhealthyUntil), times.checks(r)) == [])
        && (step.Ran? ==> Picks(ws, req, old(unhealthyUntil), times.checks(r), step.id)
                          && step.execution == exec(step.id))
      ensures leases ==
        match step
        case NoneLeft => old(leases)
        case Ran(id, Returned(_)) => old(leases) - {req.taskId}
        case Ran(id, Raised) =>
          old(leases)[req.taskId := Lease(req.taskId, id, times.leased(r) + leaseSeconds, |attempted|)]
    {
      hide *;
      var d := RouteExcluding(req, attempted, times.checks(r));
      ghost var ws := Untried(old(workers), attempted);
      RoutedPicks(d, ws, req, old(unhealthyUntil), unhealthyUntil, times.checks(r));
      if d.chosen.None? {
        return NoneLeft;
      }
      var id := d.chosen.value;
      PickedIn(old(workers), attempted, req, old(unhealthyUntil), times.checks(r), id);
      var tried := attempted + {id};
      KeyedPut(leases, Lease(req.taskId, id, times.leased(r) + leaseSeconds, |tried| - 1));
      leases := leases[req.taskId := Lease(req.taskId, id, times.leased(r) + leaseSeconds, |tried| - 1)];
      KeyedDrop(leases, req.taskId);
      var execution := exec(id);
      if execution.Raised? {
        return Ran(id, execution);
      }
      leases := leases - {req.taskId};
      assert leases == old(leases) - {req.taskId};
      step := Ran(id, execution);
    }

    /** No worker was found: the error is the reason of one more routing. */
    method GiveUp(req: Request, clock: string -> real) returns (outcome: Execution)
      requires Valid()
      modifies `unhealthyUntil
      ensures Valid()
      ensures outcome.Returned? && !outcome.reply.succeeded && !outcome.reply.retryable && outcome.reply.error.Unroutable?
      ensures !CanRetry(outcome)
      ensures outcome.reply.error.reason.NoWorker? || outcome.reply.error.reason.NoCapacity?
        <==> Fits(workers, req, old(unhealthyUntil), clock) == []
      ensures Sweeps(old(unhealthyUntil), unhealthyUntil, workers, |workers|, req, clock)
    {
      hide *;
      ghost var marks := unhealthyUntil;
      var d := Route(req, clock);
      RoutedPicks(d, workers, req, marks, unhealthyUntil, clock);
      outcome := Returned(Reply(false, false, Unroutable(d.reason), None));
      CanRetryIs(outcome);
    }

    /** One turn of the dispatch loop: a worker is called, and marked if it
        failed for now. */
    method Turn(req: Request, attempted: set<string>, calls: seq<string>, exec: string -> Execution, times: Times,
                leaseSeconds: real, ghost ws: seq<Worker>, ghost start: map<string, real>, ghost table: map<string, Lease>,
                ghost last: Option<Reply>)
      returns (step: Step)
      requires Valid() && attempted == SetOf(calls)
      requires AllFailed(ws, workers, req, start, unhealthyUntil, table, leases, exec, times, unhealthyTtl, calls, last)
      requires FirstRouting(ws, req, start, unhealthyUntil, calls, false, times)
      modifies `workers, `unhealthyUntil, `leases
      ensures Valid()
      ensures step.NoneLeft? ==>
        && AllFailed(ws, workers, req, start, unhealthyUntil, table, leases, exec, times, unhealthyTtl, calls, last)
        && Fits(Untried(ws, SetOf(calls)), req, unhealthyUntil, times.checks(|calls|)) == []
        && FirstRouting(ws, req, start, unhealthyUntil, calls, true, times)
      ensures step.Ran? ==> FirstRouting(ws, req, start, unhealthyUntil, calls + [step.id], false, times)
      ensures step.Ran? && CanRetry(step.execution) ==>
        && SetOf(calls + [step.id]) == SetOf(calls) + {step.id}
        && AllFailed(ws, workers, req, start, unhealthyUntil, table, leases, exec, times, unhealthyTtl, calls + [step.id],
                     Some(step.execution.reply))
      ensures step.Ran? && !CanRetry(step.execution) ==>
        Stopped(ws, workers, req, start, unhealthyUntil, table, leases, exec, times, leaseSeconds, unhealthyTtl,
                calls + [step.id], step.execution)
    {
      hide SameWorkers, Untried, SetOf, CanRetry, Fits, Picks, Sweeps, Concludes, Going, Tried, LeasesAfter,
           FirstRouting, Healthy, Keyed, Distinct, Marks, FromBefore;
      ghost var before, now, held := workers, unhealthyUntil, leases;
      step := Round(req, attempted, |calls|, exec, times, leaseSeconds);
      FirstRoutingTurn(ws, before, req, start, now, unhealthyUntil, table, held, exec, times, unhealthyTtl, calls, last, step);
      match step {
        case NoneLeft =>
          StillGoing(ws, before, workers, req, start, now, unhealthyUntil, exec, times, unhealthyTtl, calls);
        case Ran(id, execution) =>
          CanRetryIs(execution);
          Called(ws, before, workers, req, start, now, unhealthyUntil, exec, times, unhealthyTtl, calls, id);
          LeaseOfCall(table, held, req.taskId, calls, id, exec, times, leaseSeconds);
          if execution.Returned? && !execution.reply.succeeded && execution.reply.retryable {
            GoesOn(ws, before, workers, req, start, now, unhealthyUntil, exec, times, unhealthyTtl, calls, id);
            ghost var swept := unhealthyUntil;
            MarkUnhealthy(id, times.failed(|calls|), None);
            FirstRoutingCalled(ws, req, start, swept, unhealthyUntil, calls + [id], times);
          }
      }
    }

    /** The loop of `dispatch`: it stops with an outcome, or leaves only
        retryable failures behind, the last of which is `last`. */
    method TryWorkers(req: Request, budget: nat, exec: string -> Execution, times: Times, leaseSeconds: real)
      returns (stopped: Option<Execution>, last: Option<Reply>, calls: seq<string>)
      requires Valid()
      modifies `workers, `unhealthyUntil, `leases
      ensures Valid() && |calls| <= budget + 1
      ensures stopped.Some? ==>
        Stopped(old(workers), workers, req, old(unhealthyUntil), unhealthyUntil, old(leases), leases, exec, times,
                leaseSeconds, unhealthyTtl, calls, stopped.value)
      ensures stopped.None? ==>
        && AllFailed(old(workers), workers, req, old(unhealthyUntil), unhealthyUntil, old(leases), leases, exec, times,
                     unhealthyTtl, calls, last)
        && (|calls| <= budget ==>
              Fits(Untried(old(workers), SetOf(calls)), req, unhealthyUntil, times.checks(|calls|)) == [])
      ensures FirstRouting(old(workers), req, old(unhealthyUntil), unhealthyUntil, calls, true, times)
    {
      ghost var ws, start, table := workers, unhealthyUntil, leases;
      var attempted: set<string> := {};
      stopped, last, calls := None, None, [];
      StartsGoing(ws, req, start, exec, times, unhealthyTtl);
      FirstRoutingStarts(ws, req, start, times);
      assert SetOf([]) == {};
      hide Going;
      assert AllFailed(ws, workers, req, start, unhealthyUntil, table, leases, exec, times, unhealthyTtl, calls, last);
      CanRetryMeans();
      hide *;
      var exhausted := false;
      while |calls| <= budget && !exhausted
        invariant Valid() && attempted == SetOf(calls) && |calls| <= budget + 1
        invariant AllFailed(ws, workers, req, start, unhealthyUntil, table, leases, exec, times, unhealthyTtl, calls, last)
        invariant exhausted ==>
          Fits(Untried(ws, SetOf(calls)), req, unhealthyUntil, times.checks(|calls|)) == []
        invariant FirstRouting(ws, req, start, unhealthyUntil, calls, exhausted, times)
        decreases !exhausted, budget + 1 - |calls|
      {
        var step := Turn(req, attempted, calls, exec, times, leaseSeconds, ws, start, table, last);
        match step {
          case NoneLeft =>
            exhausted := true;
          case Ran(id, execution) =>
            if execution.Raised? || execution.reply.succeeded || !execution.reply.retryable {
              stopped, calls := Some(execution), calls + [id];
              FirstRoutingCalled(ws, req, start, unhealthyUntil, unhealthyUntil, calls, times);
              return;
            }
            last, calls, attempted := Some(execution.reply), calls + [id], attempted + {id};
        }
      }
      if calls != [] {
        FirstRoutingCalled(ws, req, start, unhealthyUntil, unhealthyUntil, calls, times);
      }
    }

    /** A request goes from worker to worker until one succeeds, raises, or
        fails for good, at most once to each. */
    method Dispatch(req: Request, retries: Option<int>, exec: string -> Execution, times: Times, leaseSeconds: real)
      returns (outcome: Execution, calls: seq<string>)
      requires Valid()
      modifies `workers, `unhealthyUntil, `leases
      ensures Valid()
      // No worker is called twice, failures leave marks, and the table of workers keeps its contents.
      ensures Tried(old(workers), workers, req, old(unhealthyUntil), unhealthyUntil, times, unhealthyTtl, calls,
                    if CanRetry(outcome) || calls == [] then |calls| else |calls| - 1)
      // Each call goes to the worker that routing chooses among the rest by the marks from before.
      ensures Monotone(times) ==>
        forall i :: 0 <= i < |calls| ==> BestOfRest(old(workers), req, old(unhealthyUntil), times, calls, i)
      ensures retries.Some? ==> |calls| <= (if retries.value > 0 then retries.value else 0) + 1
      // Every call but the last ended in a retryable failure, and the last decides.
      ensures calls != [] ==> Concludes(calls, exec, outcome)
      // A retryable failure comes back only when the retries are used up or nobody is left.
      ensures CanRetry(outcome) && (retries.None? || |calls| <= (if retries.value > 0 then retries.value else 0)) ==>
        && NobodyLeft(old(workers), req, unhealthyUntil, times.checks(|calls|), calls)
        && (Monotone(times) ==> NobodyLeft(old(workers), req, old(unhealthyUntil), times.checks(|calls|), calls))
      // Nobody is called exactly if nobody fits at the first reading of the clock. The error then names a
      // reason for that exactly if nobody fits at the second reading either.
      ensures calls == [] <==> NobodyLeft(old(workers), req, old(unhealthyUntil), times.checks(0), [])
      ensures calls == [] ==>
        && outcome.Returned? && !outcome.reply.succeeded && !outcome.reply.retryable && outcome.reply.error.Unroutable?
        && (outcome.reply.error.reason.NoWorker? || outcome.reply.error.reason.NoCapacity?
            <==> NobodyLeft(old(workers), req, old(unhealthyUntil), times.checks(1), []))
      // A call that raised leaves its lease; otherwise the task has none.
      ensures leases ==
        if calls == [] then old(leases)
        else if exec(calls[|calls| - 1]).Raised? then
          old(leases)[req.taskId := Lease(req.taskId, calls[|calls| - 1],
                                          times.leased(|calls| - 1) + leaseSeconds, |calls| - 1)]
        else old(leases) - {req.taskId}
    {
      hide *;
      ghost var ws, start, table := workers, unhealthyUntil, leases;
      var budget := match retries case None => |workers| case Some(k) => if k > 0 then k else 0;
      var stopped, last, made := TryWorkers(req, budget, exec, times, leaseSeconds);
      calls := made;
      LeasesMean(table, req.taskId, calls, exec, times, leaseSeconds);
      NobodyFits(ws, req, start, times.checks(0), []);
      NobodyFits(ws, req, start, times.checks(1), []);
      NobodyFits(ws, req, unhealthyUntil, times.checks(|calls|), calls);
      NobodyFits(ws, req, start, times.checks(|calls|), calls);
      if stopped.Some? {
        outcome := stopped.value;
        StoppedMeans(ws, workers, req, start, unhealthyUntil, table, leases, exec, times, leaseSeconds, unhealthyTtl,
                     calls, outcome);
        TriedMeans(ws, workers, req, start, unhealthyUntil, times, unhealthyTtl, calls, |calls| - 1);
        SomebodyCalled(ws, req, start, unhealthyUntil, calls, times);
        return;
      }
      if Monotone(times) {
        NoneLeftBefore(ws, workers, req, start, unhealthyUntil, table, leases, exec, times, unhealthyTtl, calls, last);
      }
      AllFailedMeans(ws, workers, req, start, unhealthyUntil, table, leases, exec, times, leaseSeconds, unhealthyTtl,
                     calls, last);
      TriedMeans(ws, workers, req, start, unhealthyUntil, times, unhealthyTtl, calls, |calls|);
      if last.Some? {
        outcome := Returned(last.value.(tried := Some(SetOf(calls))));
        SomebodyCalled(ws, req, start, unhealthyUntil, calls, times);
        return;
      }
      NobodyCalled(ws, req, start, unhealthyUntil, times);
      assert workers == ws by {
        NoCalls(calls);
        UntriedAll(ws, SetOf(calls));
        UntriedAll(workers, SetOf(calls));
      }
      ghost var marked := unhealthyUntil;
      outcome := GiveUp(req, times.checks(1));
      NoMarksYet(ws, workers, req, start, marked, unhealthyUntil, times, unhealthyTtl, calls);
    }

    /** The expired leases of the table, each once. */
    method FindExpired(clock: string -> real) returns (expired: seq<Lease>)
      requires Valid()
      ensures forall l :: l in expired <==>
        l.taskId in leases && leases[l.taskId] == l && l.expiresAt <= clock(l.taskId)
      ensures forall i, j :: 0 <= i < j < |expired| ==> expired[i].taskId != expired[j].taskId
    {
      expired := [];
      var keys := leases.Keys;
      while keys != {}
        invariant keys <= leases.Keys
        invariant forall l :: l in expired <==>
          l.taskId in leases && l.taskId !in keys && leases[l.taskId] == l && l.expiresAt <= clock(l.taskId)
        invariant forall i, j :: 0 <= i < j < |expired| ==> expired[i].taskId != expired[j].taskId
        decreases keys
      {
        var t :| t in keys;
        if leases[t].expiresAt <= clock(t) {
          forall i | 0 <= i < |expired| ensures expired[i].taskId != t {
            assert expired[i] in expired;
          }
          expired := expired + [leases[t]];
        }
        keys := keys - {t};
      }
    }

    /** Dropping the leases of these tasks. */
    method DropLeases(gone: seq<Lease>)
      modifies `leases
      ensures leases == map t | t in old(leases) && (forall j :: 0 <= j < |gone| ==> gone[j].taskId != t) :: old(leases)[t]
    {
      var i := 0;
      while i < |gone|
        invariant 0 <= i <= |gone|
        invariant leases == map t | t in old(leases) && (forall j :: 0 <= j < i ==> gone[j].taskId != t) :: old(leases)[t]
      {
        leases := leases - {gone[i].taskId};
        i := i + 1;
      }
    }

    /** The table is split exactly: the expired leases are returned, each
        once, and the others stay. */
    method ReclaimExpired(clock: string -> real) returns (expired: seq<Lease>)
      requires Valid()
      modifies `leases
      ensures Valid() && leases == Apply(old(leases), Reclaim(clock))
      ensures leases == map t | t in old(leases) && clock(t) < old(leases)[t].expiresAt :: old(leases)[t]
      ensures forall l :: l in expired <==>
        l.taskId in old(leases) && old(leases)[l.taskId] == l && l.expiresAt <= clock(l.taskId)
      ensures forall i, j :: 0 <= i < j < |expired| ==> expired[i].taskId != expired[j].taskId
    {
      ghost var table := leases;
      expired := FindExpired(clock);
      DropLeases(expired);
      assert forall j :: 0 <= j < |expired| ==> expired[j] in expired;
      forall t | t in table ensures t in leases <==> clock(t) < table[t].expiresAt {
        if table[t].expiresAt <= clock(t) {
          assert table[t] in expired;
        }
      }
    }
  }

  /** The only worker is marked until 10. The first routing reads 9 and finds
      nobody; the one that words the error reads 11 and finds the worker, so the
      task fails with the reason of a routing that succeeded. */
  method FailsWithGoodReason() returns (outcome: Execution)
    ensures outcome.Returned? && !outcome.reply.succeeded && !outcome.reply.retryable
    ensures outcome.reply.error.Unroutable?
    ensures !outcome.reply.error.reason.NoWorker? && !outcome.reply.error.reason.NoCapacity?
  {
    hide Distinct, Keyed, Fits, Tried, Concludes, CanRetry, Healthy, SetOf, NobodyLeft, BestOfRest, Monotone, RoutesRight;
    var server := new CentralServer(60.0);
    server.RegisterWorker(LONE);
    assert forall i :: 0 <= i < |server.workers| ==> server.workers[i] in server.workers;
    OneWorker(server.workers);
    server.MarkUnhealthy("a", 0.0, Some(10.0));
    var times := Times((r: nat) => (id: string) => if r == 0 then 9.0 else 11.0, (r: nat) => 9.0, (r: nat) => 9.0);
    MarkRunsOut(server.unhealthyUntil, times);
    var calls;
    outcome, calls := server.Dispatch(TASK, None, (id: string) => Raised, times, 300.0);
  }
}
