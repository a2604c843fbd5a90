// How the CAFE central server chooses a worker: hard filters, scoring and
// stable tie-breaks (src/geonexus/cafe/central.py).
module Routing {
  import opened Wrappers
  import opened Filters
  import opened StableSort
  import Resource

  // ---------------------------------------------------------------------
  // Workers and requests
  // ---------------------------------------------------------------------

  datatype Tags = Tags(cpu: Option<int>, memory: Option<real>, gpu: Option<string>, region: Option<string>)

  /** A registered worker; `kinds` is absent when the worker declares no
      capabilities. */
  datatype Worker = Worker(id: string, kinds: Option<set<string>>, assets: set<string>, tags: Tags)

  datatype Request = Request(taskId: string, kind: string, inputs: seq<string>,
                             region: Option<string>, need: Option<Resource.Runtime>)

  function CapacityOf(w: Worker): Resource.Node {
    Resource.Node(w.id, w.tags.cpu, w.tags.memory, w.tags.gpu)
  }

  /** A place in the list of inputs. */
  datatype Slot = Slot(index: nat)

  /** The inputs whose value names an asset of the worker. */
  function Held(w: Worker, req: Request): set<Slot> {
    set k | 0 <= k < |req.inputs| && req.inputs[k] in w.assets :: Slot(k)
  }

  /** How many inputs are local to the worker. */
  function Local(w: Worker, req: Request): nat {
    |Held(w, req)|
  }

  predicate Healthy(until: map<string, real>, id: string, now: real) {
    id in until ==> until[id] <= now
  }

  predicate HasCapacity(w: Worker, req: Request) {
    req.need.Some? ==> Resource.Meets(req.need.value, CapacityOf(w), false)
  }

  predicate Accepts(w: Worker, req: Request) {
    w.kinds.Some? ==> req.kind in w.kinds.value
  }

  datatype Verdict = Fit | Refused | Degraded | TooSmall

  /** What routing makes of one worker; `clock` is the time it reads when it
      checks the health of a worker. */
  function Judge(w: Worker, req: Request, until: map<string, real>, clock: string -> real): Verdict {
    if !Accepts(w, req) then Refused
    else if !Healthy(until, w.id, clock(w.id)) then Degraded
    else if !HasCapacity(w, req) then TooSmall
    else Fit
  }

  // ---------------------------------------------------------------------
  // The worker table: an ordered dictionary keyed by worker id
  // ---------------------------------------------------------------------

  function Named(id: string): Worker -> bool {
    (w: Worker) => w.id == id
  }

  function Outside(ids: set<string>): Worker -> bool {
    (w: Worker) => w.id !in ids
  }

  /** Each id is used at most once. */
  ghost predicate Distinct(ws: seq<Worker>) {
    forall i, j :: 0 <= i < j < |ws| ==> ws[i].id != ws[j].id
  }

  /** `a` and `b` hold the same workers, perhaps in another order. */
  ghost predicate SameWorkers(a: seq<Worker>, b: seq<Worker>) {
    Distinct(a) && Distinct(b) && multiset(a) == multiset(b)
  }

  function Fitting(req: Request, until: map<string, real>, clock: string -> real): Worker -> bool {
    (w: Worker) => Judge(w, req, until, clock).Fit?
  }

  function Capable(req: Request, until: map<string, real>, clock: string -> real): Worker -> bool {
    (w: Worker) => !Judge(w, req, until, clock).Refused? && !Judge(w, req, until, clock).Degraded?
  }

  /** The workers a request can be routed to, in table order. */
  function Fits(ws: seq<Worker>, req: Request, until: map<string, real>, clock: string -> real): seq<Worker> {
    Filter(ws, Fitting(req, until, clock))
  }

  // ---------------------------------------------------------------------
  // The routing rule
  // ---------------------------------------------------------------------

  /** The decision is right about the workers `ws` in a state whose health
      marks `before` routing turns into `after`. */
  ghost predicate Routed(d: Decision, ws: seq<Worker>, req: Request,
                         before: map<string, real>, after: map<string, real>, clock: string -> real)
  {
    && Partitions(d, ws, req, before, clock)
    && Chooses(d, Fits(ws, req, before, clock), req)
    && Sweeps(before, after, ws, |ws|, req, clock)
  }

  /** `fits[i]` is the worker to choose: the first with the most local inputs
      if any worker has a local input, otherwise the first whose region tag is
      the requested one, otherwise the first. A request without region and a
      worker without region tag agree. */
  ghost predicate Preferred(fits: seq<Worker>, req: Request, i: int) {
    && 0 <= i < |fits|
    && if AnyLocal(fits, req) then
         && (forall j :: 0 <= j < |fits| ==> Local(fits[j], req) <= Local(fits[i], req))
         && (forall j :: 0 <= j < i ==> Local(fits[j], req) < Local(fits[i], req))
       else if AnyInRegion(fits, req) then
         && fits[i].tags.region == req.region
         && (forall j :: 0 <= j < i ==> fits[j].tags.region != req.region)
       else i == 0
  }

  ghost predicate AnyLocal(fits: seq<Worker>, req: Request) {
    exists w, x :: w in fits && x in req.inputs && x in w.assets
  }

  /** Some input is local exactly if the number of local inputs is not zero. */
  lemma SomeLocal(w: Worker, req: Request)
    ensures Local(w, req) > 0 <==> exists x :: x in req.inputs && x in w.assets
  {
    if x :| x in req.inputs && x in w.assets {
      var k :| 0 <= k < |req.inputs| && req.inputs[k] == x;
      assert Slot(k) in Held(w, req);
    }
    if Local(w, req) > 0 {
      var slot :| slot in Held(w, req);
      assert req.inputs[slot.index] in req.inputs;
    }
  }

  lemma AnyLocalCounted(fits: seq<Worker>, req: Request)
    ensures AnyLocal(fits, req) <==> exists w :: w in fits && Local(w, req) > 0
  {
    hide Local;
    forall w | w in fits ensures Local(w, req) > 0 <==> exists x :: x in req.inputs && x in w.assets {
      SomeLocal(w, req);
    }
    if w :| w in fits && Local(w, req) > 0 {
      SomeLocal(w, req);
      var x :| x in req.inputs && x in w.assets;
      assert AnyLocal(fits, req);
    }
  }

  ghost predicate AnyInRegion(fits: seq<Worker>, req: Request) {
    exists w :: w in fits && w.tags.region == req.region
  }

  /** Without a requested region and without local inputs, the first fit
      worker is chosen exactly if it is untagged or every fit worker is
      tagged: an untagged worker is preferred to a tagged one. */
  lemma NoRegionHint(fits: seq<Worker>, req: Request)
    requires fits != [] && req.region.None? && !AnyLocal(fits, req)
    ensures Preferred(fits, req, 0) <==>
      fits[0].tags.region.None? || forall w :: w in fits ==> w.tags.region.Some?
  {
    hide AnyLocal;
    assert fits[0] in fits;
  }

  datatype Reason = NoWorker | NoCapacity | DataLocality(inputs: nat) | RegionTag | Fallback

  datatype Decision = Decision(chosen: Option<string>, candidates: seq<string>, reason: Reason,
                               excluded: map<string, Verdict>)

  function IdOf(w: Worker): string {
    w.id
  }

  function Ids(ws: seq<Worker>): (ids: seq<string>)
    ensures |ids| == |ws| && forall k :: 0 <= k < |ws| ==> ids[k] == ws[k].id
  {
    Map(ws, IdOf)
  }

  /** The decision names a preferred worker first, exactly when some worker
      fits. */
  ghost predicate Chooses(d: Decision, fits: seq<Worker>, req: Request) {
    && (d.chosen.None? <==> fits == [])
    && (d.reason.NoWorker? || d.reason.NoCapacity? <==> fits == [])
    && (fits != [] ==>
          && d.candidates != [] && d.chosen == Some(d.candidates[0])
          && (exists i :: Preferred(fits, req, i) && d.chosen == Some(fits[i].id)
                          && (d.reason.DataLocality? ==> d.reason.inputs == Local(fits[i], req)))
          && (d.reason.DataLocality? <==> AnyLocal(fits, req))
          && (d.reason.RegionTag? <==> !AnyLocal(fits, req) && AnyInRegion(fits, req)))
  }

  /** Every worker is either a candidate or excluded for its verdict, and
      nothing else is. */
  ghost predicate Partitions(d: Decision, ws: seq<Worker>, req: Request,
                             until: map<string, real>, clock: string -> real)
  {
    && multiset(d.candidates) == multiset(Ids(Fits(ws, req, until, clock)))
    && ExcludesUpTo(d.excluded, ws, |ws|, req, until, clock, false)
  }

  /** The verdict keeps a worker out of the candidates; the first pass does
      not look at capacity. */
  predicate Out(v: Verdict, early: bool) {
    v != Fit && !(early && v == TooSmall)
  }

  /** The table of excluded workers is right about worker `id`. */
  predicate Lists(excluded: map<string, Verdict>, id: string, v: Verdict, early: bool) {
    if Out(v, early) then id in excluded && excluded[id] == v else id !in excluded
  }

  ghost predicate Appears(ws: seq<Worker>, n: int, id: string)
    requires n <= |ws|
  {
    exists k :: 0 <= k < n && ws[k].id == id
  }

  /** `excluded` holds exactly the unfit workers among the first `n`, each for
      its verdict; with `early`, only those refused or degraded. */
  ghost predicate ExcludesUpTo(excluded: map<string, Verdict>, ws: seq<Worker>, n: int, req: Request,
                               until: map<string, real>, clock: string -> real, early: bool)
    requires 0 <= n <= |ws|
  {
    && (forall k :: 0 <= k < n ==> Lists(excluded, ws[k].id, Judge(ws[k], req, until, clock), early))
    && (forall id :: id in excluded ==> Appears(ws, n, id))
  }

  /** One of the first `n` workers is called `id` and its health was checked. */
  ghost predicate Checked(ws: seq<Worker>, n: int, req: Request, id: string)
    requires n <= |ws|
  {
    exists k :: 0 <= k < n && ws[k].id == id && Accepts(ws[k], req)
  }

  /** Routing drops the expired marks of the workers it checks, and changes
      no other mark. */
  ghost predicate Sweeps(before: map<string, real>, after: map<string, real>,
                         ws: seq<Worker>, n: int, req: Request, clock: string -> real)
    requires n <= |ws|
  {
    && (forall id :: id in after ==> id in before && after[id] == before[id])
    && (forall id :: id in before ==> (id !in after <==> before[id] <= clock(id) && Checked(ws, n, req, id)))
  }

  // ---------------------------------------------------------------------
  // The rule in terms of workers and requests alone
  // ---------------------------------------------------------------------

  /** The worker takes the payload, is not marked at the time its health is
      checked, and no capacity it tells is below the need. */
  predicate Eligible(w: Worker, req: Request, until: map<string, real>, clock: string -> real) {
    && (w.kinds.Some? ==> req.kind in w.kinds.value)
    && (w.id in until ==> until[w.id] <= clock(w.id))
    && (req.need.Some? ==>
          && (req.need.value.cpu.Some? && w.tags.cpu.Some? ==> req.need.value.cpu.value <= w.tags.cpu.value)
          && (req.need.value.memory.Some? && w.tags.memory.Some? ==> req.need.value.memory.value <= w.tags.memory.value)
          && Resource.GpuSatisfies(req.need.value.gpu, w.tags.gpu))
  }

  /** What is said of a worker that is not eligible. */
  predicate ExcludedFor(v: Verdict, w: Worker, req: Request, until: map<string, real>, clock: string -> real) {
    v == if w.kinds.Some? && req.kind !in w.kinds.value then Refused
         else if w.id in until && clock(w.id) < until[w.id] then Degraded
         else TooSmall
  }

  lemma FitIsEligible(w: Worker, req: Request, until: map<string, real>, clock: string -> real)
    ensures Judge(w, req, until, clock) == Fit <==> Eligible(w, req, until, clock)
    ensures Judge(w, req, until, clock) != Fit ==> ExcludedFor(Judge(w, req, until, clock), w, req, until, clock)
  {
    hide Resource.GpuSatisfies;
    if req.need.Some? {
      Resource.MeetsAll(req.need.value, CapacityOf(w), false);
    }
  }

  /** The worker is eligible and was not tried before. */
  predicate Candidate(w: Worker, tried: set<string>, req: Request, until: map<string, real>, clock: string -> real) {
    w.id !in tried && Eligible(w, req, until, clock)
  }

  /** Worker `i` of the table is the one to choose among the candidates: the first
      with the most local inputs if any holds an input, otherwise the first whose
      region tag is the requested one, otherwise the first. */
  ghost predicate ChosenAt(ws: seq<Worker>, tried: set<string>, req: Request, until: map<string, real>,
                           clock: string -> real, i: int)
  {
    && 0 <= i < |ws| && Candidate(ws[i], tried, req, until, clock)
    && if exists w, x :: w in ws && Candidate(w, tried, req, until, clock) && x in req.inputs && x in w.assets then
         forall j :: 0 <= j < |ws| && Candidate(ws[j], tried, req, until, clock) ==>
           && Local(ws[j], req) <= Local(ws[i], req)
           && (j < i ==> Local(ws[j], req) < Local(ws[i], req))
       else if exists w :: w in ws && Candidate(w, tried, req, until, clock) && w.tags.region == req.region then
         && ws[i].tags.region == req.region
         && forall j :: 0 <= j < i && Candidate(ws[j], tried, req, until, clock) ==> ws[j].tags.region != req.region
       else
         forall j :: 0 <= j < i ==> !Candidate(ws[j], tried, req, until, clock)
  }

  function IsCandidate(tried: set<string>, req: Request, until: map<string, real>, clock: string -> real): Worker -> bool {
    (w: Worker) => Candidate(w, tried, req, until, clock)
  }

  lemma FitsAreCandidates(ws: seq<Worker>, tried: set<string>, req: Request, until: map<string, real>, clock: string -> real)
    ensures Fits(Untried(ws, tried), req, until, clock) == Filter(ws, IsCandidate(tried, req, until, clock))
    ensures Fits(Untried(ws, tried), req, until, clock) == [] <==>
            forall w :: w in ws ==> !Candidate(w, tried, req, until, clock)
  {
    hide Filter, Judge, Eligible, ExcludedFor;
    forall w: Worker
      ensures IsCandidate(tried, req, until, clock)(w) == (Outside(tried)(w) && Fitting(req, until, clock)(w))
    {
      FitIsEligible(w, req, until, clock);
    }
    FilterNested(ws, Outside(tried), Fitting(req, until, clock), IsCandidate(tried, req, until, clock));
    NoneFiltered(ws, IsCandidate(tried, req, until, clock));
  }

  lemma NoneFiltered(ws: seq<Worker>, p: Worker -> bool)
    ensures Filter(ws, p) == [] <==> forall w :: w in ws ==> !p(w)
  {
    hide Filter;
    var passing := Filter(ws, p);
    FilterMember(ws, p);
    if passing != [] {
      assert passing[0] in passing;
    }
  }

  /** Whether anyone passes the first filter. */
  lemma NobodyCapable(ws: seq<Worker>, req: Request, until: map<string, real>, clock: string -> real)
    ensures Filter(ws, Capable(req, until, clock)) == [] <==>
      forall w :: w in ws ==> (w.kinds.Some? && req.kind !in w.kinds.value) || (w.id in until && clock(w.id) < until[w.id])
  {
    hide Filter, HasCapacity;
    NoneFiltered(ws, Capable(req, until, clock));
  }

  /** What is preferred among the fit workers is what is chosen from the table. */
  lemma PreferredIsChosen(ws: seq<Worker>, tried: set<string>, req: Request, until: map<string, real>,
                          clock: string -> real, k: nat) returns (i: nat)
    requires Preferred(Fits(Untried(ws, tried), req, until, clock), req, k)
    ensures i < |ws| && ChosenAt(ws, tried, req, until, clock, i) && ws[i] == Fits(Untried(ws, tried), req, until, clock)[k]
  {
    hide Filter, Fits, Candidate, Local, Untried;
    var p := IsCandidate(tried, req, until, clock);
    var fits := Fits(Untried(ws, tried), req, until, clock);
    FitsAreCandidates(ws, tried, req, until, clock);
    FilterMember(ws, p);
    i := FilterPlace(ws, p, k);
    FilterMember(ws[..i], p);
    assert Candidate(ws[i], tried, req, until, clock) by {
      assert fits[k] in fits && p(fits[k]);
    }
    forall w ensures w in fits <==> w in ws && Candidate(w, tried, req, until, clock) {
      assert p(w) == Candidate(w, tried, req, until, clock);
    }
    forall j | 0 <= j < |ws| && Candidate(ws[j], tried, req, until, clock)
      ensures exists m :: 0 <= m < |fits| && fits[m] == ws[j] && (j < i ==> m < k)
    {
      assert ws[j] in fits;
      if j < i {
        assert p(ws[j]) && ws[..i][j] == ws[j] && ws[j] in fits[..k];
      }
    }
  }

  /** The worker is a candidate or excluded for what keeps it out. */
  predicate ListedRight(d: Decision, w: Worker, req: Request, until: map<string, real>, clock: string -> real) {
    && (w.id in d.candidates <==> Eligible(w, req, until, clock))
    && (w.id in d.excluded <==> !Eligible(w, req, until, clock))
    && (w.id in d.excluded ==> ExcludedFor(d.excluded[w.id], w, req, until, clock))
  }

  /** The decision in terms of the table: who is excluded and for what, who is a
      candidate, who is chosen and for which reason. */
  ghost predicate RoutesRight(d: Decision, ws: seq<Worker>, req: Request, until: map<string, real>, clock: string -> real) {
    && (forall k :: 0 <= k < |ws| ==> ListedRight(d, ws[k], req, until, clock))
    && (d.chosen.None? <==> forall w :: w in ws ==> !Eligible(w, req, until, clock))
    && (d.chosen.Some? ==>
          exists i :: ChosenAt(ws, {}, req, until, clock, i) && d.chosen == Some(ws[i].id)
            && d.reason == if Local(ws[i], req) > 0 then DataLocality(Local(ws[i], req))
                           else if ws[i].tags.region == req.region then RegionTag
                           else Fallback)
  }

  /** The reason follows from the preferred worker alone. */
  lemma ReasonOfPreferred(d: Decision, fits: seq<Worker>, req: Request, k: nat)
    requires Preferred(fits, req, k)
    requires d.reason.DataLocality? <==> AnyLocal(fits, req)
    requires d.reason.RegionTag? <==> !AnyLocal(fits, req) && AnyInRegion(fits, req)
    requires !d.reason.NoWorker? && !d.reason.NoCapacity?
    requires d.reason.DataLocality? ==> d.reason.inputs == Local(fits[k], req)
    ensures d.reason == if Local(fits[k], req) > 0 then DataLocality(Local(fits[k], req))
                        else if fits[k].tags.region == req.region then RegionTag
                        else Fallback
  {
    hide AnyLocal, Local;
    AnyLocalCounted(fits, req);
    assert fits[k] in fits;
    if w :| w in fits && Local(w, req) > 0 {
      var j :| 0 <= j < |fits| && fits[j] == w;
    }
  }

  lemma RoutedIsRight(d: Decision, ws: seq<Worker>, req: Request, before: map<string, real>, after: map<string, real>,
                      clock: string -> real)
    requires Distinct(ws) && Routed(d, ws, req, before, after, clock)
    ensures RoutesRight(d, ws, req, before, clock)
  {
    hide Distinct, Fits, Eligible, ExcludedFor, ChosenAt, Chooses, Partitions, Local, Sweeps;
    forall k | 0 <= k < |ws| ensures ListedRight(d, ws[k], req, before, clock) {
      PartitionLists(d, ws, k, req, before, clock);
    }
    NobodyChosenIff(d, ws, req, before, clock);
    if d.chosen.Some? {
      var i := ChosenFrom(d, ws, req, before, clock);
    }
  }

  lemma PartitionLists(d: Decision, ws: seq<Worker>, k: nat, req: Request, until: map<string, real>, clock: string -> real)
    requires Distinct(ws) && Partitions(d, ws, req, until, clock) && k < |ws|
    ensures ListedRight(d, ws[k], req, until, clock)
  {
    hide Distinct, Fits, Judge, Eligible, ExcludedFor, Ids;
    FitIsEligible(ws[k], req, until, clock);
    IsListed(ws, k, req, until, clock);
    SameMembers(d.candidates, Ids(Fits(ws, req, until, clock)));
    assert Lists(d.excluded, ws[k].id, Judge(ws[k], req, until, clock), false);
  }

  lemma NobodyChosenIff(d: Decision, ws: seq<Worker>, req: Request, until: map<string, real>, clock: string -> real)
    requires Chooses(d, Fits(ws, req, until, clock), req)
    ensures d.chosen.None? <==> forall w :: w in ws ==> !Eligible(w, req, until, clock)
  {
    hide Fits, Eligible, Untried, AnyLocal, AnyInRegion, Preferred;
    UntriedAll(ws, {});
    FitsAreCandidates(ws, {}, req, until, clock);
    assert forall w :: Candidate(w, {}, req, until, clock) == Eligible(w, req, until, clock);
  }

  lemma ChosenFrom(d: Decision, ws: seq<Worker>, req: Request, until: map<string, real>, clock: string -> real)
    returns (i: nat)
    requires Chooses(d, Fits(ws, req, until, clock), req) && d.chosen.Some?
    ensures i < |ws| && ChosenAt(ws, {}, req, until, clock, i) && d.chosen == Some(ws[i].id)
    ensures d.reason == if Local(ws[i], req) > 0 then DataLocality(Local(ws[i], req))
                        else if ws[i].tags.region == req.region then RegionTag
                        else Fallback
  {
    hide Fits, ChosenAt, AnyLocal, AnyInRegion, Local, Untried;
    var fits := Fits(ws, req, until, clock);
    var k :| Preferred(fits, req, k) && d.chosen == Some(fits[k].id)
             && (d.reason.DataLocality? ==> d.reason.inputs == Local(fits[k], req));
    ReasonOfPreferred(d, fits, req, k);
    UntriedAll(ws, {});
    i := PreferredIsChosen(ws, {}, req, until, clock, k);
  }

  lemma SameMembers(a: seq<string>, b: seq<string>)
    requires multiset(a) == multiset(b)
    ensures forall x :: x in a <==> x in b
  {
    assert forall x :: x in a <==> x in multiset(a);
  }

  /** A worker's id is among those of the fit workers exactly if it fits. */
  lemma IsListed(ws: seq<Worker>, k: nat, req: Request, until: map<string, real>, clock: string -> real)
    requires Distinct(ws) && k < |ws|
    ensures ws[k].id in Ids(Fits(ws, req, until, clock)) <==> Judge(ws[k], req, until, clock) == Fit
  {
    hide Filter, Judge;
    var fits := Fits(ws, req, until, clock);
    FilterMember(ws, Fitting(req, until, clock));
    if ws[k].id in Ids(fits) {
      var m :| 0 <= m < |fits| && fits[m].id == ws[k].id;
      assert fits[m] in fits;
      var j :| 0 <= j < |ws| && ws[j] == fits[m];
      SameId(ws, j, k);
      assert Fitting(req, until, clock)(ws[k]);
    }
    if Judge(ws[k], req, until, clock) == Fit {
      assert Fitting(req, until, clock)(ws[k]) && ws[k] in fits;
      var m :| 0 <= m < |fits| && fits[m] == ws[k];
      assert Ids(fits)[m] == ws[k].id;
    }
  }

  // ---------------------------------------------------------------------
  // Scoring and choosing among the capable workers
  // ---------------------------------------------------------------------

  datatype Scored = Scored(local: nat, worker: Worker)

  function Locality(s: Scored): real {
    s.local as real
  }

  function WorkerOf(s: Scored): Worker {
    s.worker
  }

  function InRegion(region: Option<string>): Scored -> bool {
    (s: Scored) => s.worker.tags.region == region
  }

  function NotAmong(ids: seq<string>): Scored -> bool {
    (s: Scored) => s.worker.id !in ids
  }

  function ScoredId(s: Scored): string {
    s.worker.id
  }

  /** Each score is the locality of its worker. */
  ghost predicate ScoresRight(scored: seq<Scored>, req: Request) {
    forall s :: s in scored ==> s.local == Local(s.worker, req)
  }

  lemma IdsOfScored(scored: seq<Scored>)
    ensures Ids(Map(scored, WorkerOf)) == Map(scored, ScoredId)
  {
  }

  /** Sorting the scores permutes the candidates. */
  lemma CandidatesPermute(scored: seq<Scored>, sorted: seq<Scored>)
    requires multiset(sorted) == multiset(scored)
    ensures multiset(Map(sorted, ScoredId)) == multiset(Ids(Map(scored, WorkerOf)))
  {
    hide *;
    MapPermutes(sorted, scored, ScoredId);
    IdsOfScored(scored);
  }

  /** Without a local input anywhere the stable sort keeps the table order. */
  lemma NothingLocal(scored: seq<Scored>)
    requires scored != [] && SortDesc(scored, Locality) != [] && SortDesc(scored, Locality)[0].local == 0
    ensures SortDesc(scored, Locality) == scored
    ensures forall s :: s in scored ==> s.local == 0
  {
    hide SortDesc, WithKey;
    var sorted := SortDesc(scored, Locality);
    SortSorts(scored, Locality);
    forall s | s in scored ensures s.local == 0 {
      assert s in multiset(sorted);
    }
    forall v ensures WithKey(sorted, Locality, v) == WithKey(scored, Locality, v) {
      SortStable(scored, Locality, v);
    }
    SortUnique(sorted, scored, Locality);
  }

  /** The head of the sorted scores is the preferred worker when it has a
      local input. */
  lemma HeadIsPreferred(scored: seq<Scored>, req: Request) returns (i: nat)
    requires ScoresRight(scored, req)
    requires scored != [] && SortDesc(scored, Locality) != [] && SortDesc(scored, Locality)[0].local > 0
    ensures i < |scored| && scored[i] == SortDesc(scored, Locality)[0]
    ensures Local(Map(scored, WorkerOf)[i], req) == SortDesc(scored, Locality)[0].local
    ensures Preferred(Map(scored, WorkerOf), req, i) && AnyLocal(Map(scored, WorkerOf), req)
  {
    hide SortDesc, Local, AnyLocal;
    AnyLocalCounted(Map(scored, WorkerOf), req);
    i := SortHead(scored, Locality);
    var fits := Map(scored, WorkerOf);
    assert forall j :: 0 <= j < |scored| ==> scored[j] in scored && fits[j] == scored[j].worker;
    assert fits[i] in fits && Local(fits[i], req) > 0;
    forall j | 0 <= j < |fits| ensures Local(fits[j], req) <= Local(fits[i], req) {
      assert Locality(scored[j]) <= Locality(scored[i]);
    }
    forall j | 0 <= j < i ensures Local(fits[j], req) < Local(fits[i], req) {
      assert Locality(scored[j]) < Locality(scored[i]);
    }
  }

  lemma NobodyLocal(scored: seq<Scored>, req: Request)
    requires ScoresRight(scored, req) && forall s :: s in scored ==> s.local == 0
    ensures !AnyLocal(Map(scored, WorkerOf), req)
  {
    hide Local, AnyLocal;
    AnyLocalCounted(Map(scored, WorkerOf), req);
    var fits := Map(scored, WorkerOf);
    forall w | w in fits ensures Local(w, req) == 0 {
      var k :| 0 <= k < |fits| && fits[k] == w;
      assert scored[k] in scored;
    }
  }

  /** The first scored worker of the region is preferred. */
  lemma RegionIsPreferred(scored: seq<Scored>, req: Request) returns (i: nat)
    requires !AnyLocal(Map(scored, WorkerOf), req)
    requires Filter(scored, InRegion(req.region)) != []
    ensures i < |scored| && scored[i] == Filter(scored, InRegion(req.region))[0]
    ensures Preferred(Map(scored, WorkerOf), req, i) && AnyInRegion(Map(scored, WorkerOf), req)
  {
    hide Filter, AnyLocal;
    i := FilterFirst(scored, InRegion(req.region));
    var fits := Map(scored, WorkerOf);
    assert fits[i] in fits && fits[i].tags.region == req.region;
    forall j | 0 <= j < i ensures fits[j].tags.region != req.region {
      assert !InRegion(req.region)(scored[j]);
    }
  }

  lemma NobodyInRegion(scored: seq<Scored>, req: Request)
    requires scored != [] && !AnyLocal(Map(scored, WorkerOf), req)
    requires Filter(scored, InRegion(req.region)) == []
    ensures Preferred(Map(scored, WorkerOf), req, 0) && !AnyInRegion(Map(scored, WorkerOf), req)
  {
    hide Filter, AnyLocal;
    var fits := Map(scored, WorkerOf);
    FilterMember(scored, InRegion(req.region));
    forall w | w in fits ensures w.tags.region != req.region {
      var k :| 0 <= k < |fits| && fits[k] == w;
      assert scored[k] in scored;
      assert !InRegion(req.region)(scored[k]);
    }
  }

  /** The workers of the region followed by the others are all the workers. */
  lemma ListSplits(scored: seq<Scored>, region: Option<string>, ids: seq<string>)
    requires Distinct(Map(scored, WorkerOf))
    requires ids == Map(Filter(scored, InRegion(region)), ScoredId)
    ensures multiset(Filter(scored, InRegion(region)) + Filter(scored, NotAmong(ids))) == multiset(scored)
  {
    hide Filter;
    var here := Filter(scored, InRegion(region));
    FilterMember(scored, InRegion(region));
    forall s | s in scored ensures NotAmong(ids)(s) == !InRegion(region)(s) {
      if InRegion(region)(s) {
        var k :| 0 <= k < |here| && here[k] == s;
        assert ids[k] == s.worker.id;
      } else if s.worker.id in ids {
        var k :| 0 <= k < |ids| && ids[k] == s.worker.id;
        assert here[k] in here;
        SameScored(scored, s, here[k]);
        assert false;
      }
    }
    FilterSplits(scored, InRegion(region), NotAmong(ids));
  }

  lemma RegionSplits(scored: seq<Scored>, region: Option<string>, ids: seq<string>)
    requires Distinct(Map(scored, WorkerOf))
    requires ids == Map(Filter(scored, InRegion(region)), ScoredId)
    ensures multiset(ids + Map(Filter(scored, NotAmong(ids)), ScoredId)) == multiset(Map(scored, ScoredId))
  {
    hide Filter, Distinct;
    var here, rest := Filter(scored, InRegion(region)), Filter(scored, NotAmong(ids));
    ListSplits(scored, region, ids);
    MapPermutes(here + rest, scored, ScoredId);
    MapConcat(here, rest, ScoredId);
  }

  lemma NothingTurns(key: Scored -> real, pos: Scored -> int)
    ensures Ranked([], key, pos) && Map<Scored, string>([], ScoredId) == []
  {
  }

  lemma SameScored(scored: seq<Scored>, a: Scored, b: Scored)
    requires Distinct(Map(scored, WorkerOf)) && a in scored && b in scored && a.worker.id == b.worker.id
    ensures a == b
  {
    var fits := Map(scored, WorkerOf);
    var i :| 0 <= i < |scored| && scored[i] == a;
    var j :| 0 <= j < |scored| && scored[j] == b;
    assert fits[i] == a.worker && fits[j] == b.worker;
  }

  lemma ChosenIs(d: Decision, fits: seq<Worker>, req: Request, i: int)
    requires Preferred(fits, req, i) && d.candidates != [] && d.candidates[0] == fits[i].id
    requires d.chosen == Some(d.candidates[0])
    requires d.reason == Fallback || d.reason == RegionTag || d.reason.DataLocality?
    requires d.reason.DataLocality? <==> AnyLocal(fits, req)
    requires d.reason.RegionTag? <==> !AnyLocal(fits, req) && AnyInRegion(fits, req)
    requires d.reason.DataLocality? ==> d.reason.inputs == Local(fits[i], req)
    ensures Chooses(d, fits, req)
  {
    hide AnyLocal, AnyInRegion, Local;
  }

  lemma NobodyChosen(d: Decision, req: Request)
    requires d.chosen.None? && d.candidates == [] && (d.reason.NoWorker? || d.reason.NoCapacity?)
    ensures Chooses(d, [], req)
  {
  }

  /** The first of a list of candidates that starts with a scored worker. */
  lemma FirstCandidate(list: seq<Scored>, scored: seq<Scored>, i: nat)
    requires list != [] && i < |scored| && list[0] == scored[i]
    ensures Map(list, ScoredId)[0] == list[0].worker.id == Map(scored, WorkerOf)[i].id
  {
  }

  // ---------------------------------------------------------------------
  // The order of the candidates
  // ---------------------------------------------------------------------

  function PlaceIn(ws: seq<Worker>): Scored -> int {
    (s: Scored) => FirstPlace(ws, Named(s.worker.id))
  }

  lemma PlaceAt(ws: seq<Worker>, i: nat)
    requires Distinct(ws) && i < |ws|
    ensures FirstPlace(ws, Named(ws[i].id)) == i
  {
    hide FirstPlace;
    assert Named(ws[i].id)(ws[i]);
  }

  /** What candidates are ordered by, before their places in the table. */
  ghost function TurnKey(fits: seq<Worker>, req: Request): Scored -> real {
    if AnyLocal(fits, req) then Locality
    else if AnyInRegion(fits, req) then ((s: Scored) => if s.worker.tags.region == req.region then 1.0 else 0.0)
    else ((s: Scored) => 0.0)
  }

  /** Worker `i` of the table is listed before worker `j`. */
  ghost predicate Sooner(ws: seq<Worker>, req: Request, until: map<string, real>, clock: string -> real, i: nat, j: nat)
    requires i < |ws| && j < |ws|
  {
    if exists w, x :: w in ws && Eligible(w, req, until, clock) && x in req.inputs && x in w.assets then
      Local(ws[i], req) > Local(ws[j], req) || (Local(ws[i], req) == Local(ws[j], req) && i < j)
    else if exists w :: w in ws && Eligible(w, req, until, clock) && w.tags.region == req.region then
      if ws[i].tags.region == req.region then ws[j].tags.region == req.region ==> i < j
      else ws[j].tags.region != req.region && i < j
    else i < j
  }

  /** The candidates stand in the order of preference: by falling number of local
      inputs if there are any, otherwise those of the region first, and otherwise as
      in the table, which also decides between equals. */
  ghost predicate InTurn(candidates: seq<string>, ws: seq<Worker>, req: Request, until: map<string, real>, clock: string -> real) {
    forall m, n, i, j ::
      0 <= m < n < |candidates| && 0 <= i < |ws| && 0 <= j < |ws| && ws[i].id == candidates[m] && ws[j].id == candidates[n]
      ==> Sooner(ws, req, until, clock, i, j)
  }

  /** One part with a greater key than the other, each by rising position. */
  lemma PartsRanked(a: seq<Scored>, b: seq<Scored>, key: Scored -> real, pos: Scored -> int, high: real, low: real)
    requires Rising(a, pos) && Rising(b, pos) && high > low
    requires (forall s :: s in a ==> key(s) == high) && (forall s :: s in b ==> key(s) == low)
    ensures Ranked(a + b, key, pos)
  {
    var r := a + b;
    forall i, j | 0 <= i < j < |r| ensures Precedes(r[i], r[j], key, pos) {
      if j < |a| {
        assert r[i] == a[i] && r[j] == a[j] && a[i] in a && a[j] in a;
      } else if i < |a| {
        assert r[i] == a[i] && r[j] == b[j - |a|] && a[i] in a && b[j - |a|] in b;
      } else {
        assert r[i] == b[i - |a|] && r[j] == b[j - |a|] && b[i - |a|] in b && b[j - |a|] in b;
      }
    }
  }

  lemma LocalTurn(scored: seq<Scored>, req: Request, pos: Scored -> int)
    requires Rising(scored, pos) && AnyLocal(Map(scored, WorkerOf), req)
    ensures Ranked(SortDesc(scored, Locality), TurnKey(Map(scored, WorkerOf), req), pos)
  {
    hide SortDesc, Rising, Ranked, AnyLocal;
    SortRanks(scored, Locality, pos);
  }

  lemma RegionTurn(scored: seq<Scored>, req: Request, ids: seq<string>, pos: Scored -> int)
    requires Rising(scored, pos) && Distinct(Map(scored, WorkerOf))
    requires !AnyLocal(Map(scored, WorkerOf), req) && AnyInRegion(Map(scored, WorkerOf), req)
    requires ids == Map(Filter(scored, InRegion(req.region)), ScoredId)
    ensures Ranked(Filter(scored, InRegion(req.region)) + Filter(scored, NotAmong(ids)), TurnKey(Map(scored, WorkerOf), req), pos)
  {
    hide Filter, Rising, Ranked, AnyLocal, AnyInRegion, Distinct;
    var here, rest := Filter(scored, InRegion(req.region)), Filter(scored, NotAmong(ids));
    RisingFilter(scored, InRegion(req.region), pos);
    RisingFilter(scored, NotAmong(ids), pos);
    FilterMember(scored, InRegion(req.region));
    FilterMember(scored, NotAmong(ids));
    var key := TurnKey(Map(scored, WorkerOf), req);
    forall s | s in here ensures s.worker.id in ids {
      var k :| 0 <= k < |here| && here[k] == s;
      assert ids[k] == s.worker.id;
    }
    forall s | s in rest ensures key(s) == 0.0 {
      assert NotAmong(ids)(s) && s in scored;
      assert s in here <==> InRegion(req.region)(s);
    }
    forall s | s in here ensures key(s) == 1.0 {
      assert InRegion(req.region)(s);
    }
    PartsRanked(here, rest, key, pos, 1.0, 0.0);
  }

  lemma TableTurn(scored: seq<Scored>, req: Request, pos: Scored -> int)
    requires Rising(scored, pos) && !AnyLocal(Map(scored, WorkerOf), req) && !AnyInRegion(Map(scored, WorkerOf), req)
    ensures Ranked(scored, TurnKey(Map(scored, WorkerOf), req), pos)
  {
    hide AnyLocal, AnyInRegion;
  }

  /** The fit workers of a table stand in its order. */
  lemma FitsRise(ws: seq<Worker>, scored: seq<Scored>, req: Request, until: map<string, real>, clock: string -> real)
    requires Distinct(ws) && Map(scored, WorkerOf) == Fits(ws, req, until, clock)
    ensures Rising(scored, PlaceIn(ws))
  {
    hide Filter, Judge, Distinct, FirstPlace, Map;
    var p := Fitting(req, until, clock);
    forall i, j | 0 <= i < j < |scored| ensures PlaceIn(ws)(scored[i]) < PlaceIn(ws)(scored[j]) {
      MapAt(scored, i);
      MapAt(scored, j);
      var a, b := FilterInOrder(ws, p, i, j);
      PlaceAt(ws, a);
      PlaceAt(ws, b);
    }
  }

  lemma MapAt(scored: seq<Scored>, i: nat)
    requires i < |scored|
    ensures |Map(scored, WorkerOf)| == |scored| && Map(scored, WorkerOf)[i] == scored[i].worker
  {
  }

  lemma NobodyInTurn(ws: seq<Worker>, req: Request, until: map<string, real>, clock: string -> real)
    ensures InTurn([], ws, req, until, clock)
  {
  }

  /** A ranked list of the fit workers gives candidates in their turn. */
  lemma RankedInTurn(list: seq<Scored>, scored: seq<Scored>, ws: seq<Worker>, req: Request, until: map<string, real>,
                     clock: string -> real)
    requires Distinct(ws) && ScoresRight(scored, req) && multiset(list) == multiset(scored)
    requires Map(scored, WorkerOf) == Fits(ws, req, until, clock)
    requires Ranked(list, TurnKey(Map(scored, WorkerOf), req), PlaceIn(ws))
    ensures InTurn(Map(list, ScoredId), ws, req, until, clock)
  {
    hide Distinct, ScoresRight, Fits, Ranked, Sooner, Map;
    var candidates := Map(list, ScoredId);
    forall m, n, i, j |
      0 <= m < n < |candidates| && 0 <= i < |ws| && 0 <= j < |ws| && ws[i].id == candidates[m] && ws[j].id == candidates[n]
      ensures Sooner(ws, req, until, clock, i, j)
    {
      ListedWorker(list, scored, ws, req, until, clock, m, i);
      ListedWorker(list, scored, ws, req, until, clock, n, j);
      RankedAt(list, TurnKey(Map(scored, WorkerOf), req), PlaceIn(ws), m, n);
      TurnMeans(list[m], list[n], ws, req, until, clock, i, j);
    }
  }

  lemma ListedWorker(list: seq<Scored>, scored: seq<Scored>, ws: seq<Worker>, req: Request, until: map<string, real>,
                     clock: string -> real, m: nat, i: nat)
    requires Distinct(ws) && ScoresRight(scored, req) && multiset(list) == multiset(scored) && m < |list| && i < |ws|
    requires Map(scored, WorkerOf) == Fits(ws, req, until, clock) && ws[i].id == Map(list, ScoredId)[m]
    ensures list[m].worker == ws[i] && list[m].local == Local(ws[i], req) && FirstPlace(ws, Named(ws[i].id)) == i
  {
    hide Filter, Judge, FirstPlace, Local;
    var s := list[m];
    assert s in multiset(list) && s in scored;
    var k :| 0 <= k < |scored| && scored[k] == s;
    FilterMember(ws, Fitting(req, until, clock));
    assert Fits(ws, req, until, clock)[k] == s.worker && s.worker in Fits(ws, req, until, clock);
    var j :| 0 <= j < |ws| && ws[j] == s.worker;
    SameId(ws, i, j);
    PlaceAt(ws, i);
  }

  lemma TurnMeans(a: Scored, b: Scored, ws: seq<Worker>, req: Request, until: map<string, real>, clock: string -> real, i: nat, j: nat)
    requires i < |ws| && j < |ws| && a.worker == ws[i] && b.worker == ws[j]
    requires a.local == Local(ws[i], req) && b.local == Local(ws[j], req)
    requires FirstPlace(ws, Named(ws[i].id)) == i && FirstPlace(ws, Named(ws[j].id)) == j
    requires Precedes(a, b, TurnKey(Fits(ws, req, until, clock), req), PlaceIn(ws))
    ensures Sooner(ws, req, until, clock, i, j)
  {
    hide FirstPlace, Local, Fits, Eligible;
    FitsAreEligible(ws, req, until, clock);
  }

  lemma FitsAreEligible(ws: seq<Worker>, req: Request, until: map<string, real>, clock: string -> real)
    ensures forall w :: w in Fits(ws, req, until, clock) <==> w in ws && Eligible(w, req, until, clock)
  {
    hide Filter, Judge, Eligible, ExcludedFor;
    FilterMember(ws, Fitting(req, until, clock));
    forall w ensures Fitting(req, until, clock)(w) <==> Eligible(w, req, until, clock) {
      FitIsEligible(w, req, until, clock);
    }
  }

  /** The tail of `route`: sort by locality and take the first, or the first
      in the region, or the first. */
  method Choose(scored: seq<Scored>, req: Request, excluded: map<string, Verdict>, ghost pos: Scored -> int)
    returns (d: Decision, ghost list: seq<Scored>)
    requires Rising(scored, pos)
    requires ScoresRight(scored, req) && Distinct(Map(scored, WorkerOf))
    ensures Chooses(d, Map(scored, WorkerOf), req)
    ensures multiset(d.candidates) == multiset(Ids(Map(scored, WorkerOf)))
    ensures d.excluded == excluded && d.reason != NoWorker
    ensures d.candidates == Map(list, ScoredId) && multiset(list) == multiset(scored)
    ensures Ranked(list, TurnKey(Map(scored, WorkerOf), req), pos)
  {
    hide *;
    ghost var fits := Map(scored, WorkerOf);
    if scored == [] {
      d := Decision(None, [], NoCapacity, excluded);
      NobodyChosen(d, req);
      list := [];
      NothingTurns(TurnKey(fits, req), pos);
      return;
    }
    var sorted := SortDesc(scored, Locality);
    SortSorts(scored, Locality);
    CandidatesPermute(scored, sorted);
    if sorted[0].local > 0 {
      ghost var i := HeadIsPreferred(scored, req);
      list := sorted;
      LocalTurn(scored, req, pos);
      d := Decision(Some(sorted[0].worker.id), Map(sorted, ScoredId), DataLocality(sorted[0].local), excluded);
      FirstCandidate(sorted, scored, i);
      ChosenIs(d, fits, req, i);
      return;
    }
    NothingLocal(scored);
    NobodyLocal(scored, req);
    var here := Filter(sorted, InRegion(req.region));
    if here != [] {
      var ids := Map(here, ScoredId);
      var others := Map(Filter(sorted, NotAmong(ids)), ScoredId);
      RegionSplits(scored, req.region, ids);
      ghost var i := RegionIsPreferred(scored, req);
      list := here + Filter(sorted, NotAmong(ids));
      RegionTurn(scored, req, ids, pos);
      ListSplits(scored, req.region, ids);
      MapConcat(here, Filter(sorted, NotAmong(ids)), ScoredId);
      d := Decision(Some(ids[0]), ids + others, RegionTag, excluded);
      FirstCandidate(here, scored, i);
      ChosenIs(d, fits, req, i);
      return;
    }
    NobodyInRegion(scored, req);
    list := sorted;
    TableTurn(scored, req, pos);
    var candidates := Map(sorted, ScoredId);
    FirstCandidate(sorted, scored, 0);
    d := Decision(Some(candidates[0]), candidates, Fallback, excluded);
    ChosenIs(d, fits, req, 0);
  }

  // ---------------------------------------------------------------------
  // One more worker filtered
  // ---------------------------------------------------------------------

  lemma ExcludeNext(excluded: map<string, Verdict>, next: map<string, Verdict>, ws: seq<Worker>, k: nat,
                    req: Request, until: map<string, real>, clock: string -> real, early: bool)
    requires Distinct(ws) && k < |ws|
    requires ExcludesUpTo(excluded, ws, k, req, until, clock, early)
    requires var v := Judge(ws[k], req, until, clock);
      next == if Out(v, early) then excluded[ws[k].id := v] else excluded
    ensures ExcludesUpTo(next, ws, k + 1, req, until, clock, early)
  {
    hide Judge, Out;
    assert !Appears(ws, k, ws[k].id);
    assert ws[k].id !in excluded;
    forall id | id in next ensures Appears(ws, k + 1, id) {
      if id == ws[k].id {
        assert ws[k].id == id;
      } else {
        assert Appears(ws, k, id);
      }
    }
    forall j | 0 <= j < k + 1
      ensures Lists(next, ws[j].id, Judge(ws[j], req, until, clock), early)
    {
      if j < k {
        assert Lists(excluded, ws[j].id, Judge(ws[j], req, until, clock), early);
      }
    }
  }

  /** Dropping the marks of earlier workers does not touch this one's. */
  lemma StillMarked(before: map<string, real>, now: map<string, real>, ws: seq<Worker>, k: nat,
                    req: Request, clock: string -> real, t: real)
    requires Distinct(ws) && k < |ws| && Sweeps(before, now, ws, k, req, clock)
    ensures Healthy(now, ws[k].id, t) == Healthy(before, ws[k].id, t)
  {
    assert !Checked(ws, k, req, ws[k].id);
  }

  lemma SweepNext(before: map<string, real>, now: map<string, real>, next: map<string, real>, ws: seq<Worker>, k: nat,
                  req: Request, clock: string -> real)
    requires Distinct(ws) && k < |ws| && Sweeps(before, now, ws, k, req, clock)
    requires next == if Accepts(ws[k], req) && Healthy(before, ws[k].id, clock(ws[k].id))
                     then now - {ws[k].id} else now
    ensures Sweeps(before, next, ws, k + 1, req, clock)
  {
    hide Accepts;
    var w := ws[k];
    assert !Checked(ws, k, req, w.id);
    forall id ensures Checked(ws, k + 1, req, id) <==> Checked(ws, k, req, id) || (id == w.id && Accepts(w, req)) {
      if Checked(ws, k, req, id) {
        var j :| 0 <= j < k && ws[j].id == id && Accepts(ws[j], req);
        assert 0 <= j < k + 1;
      }
    }
    hide Checked;
  }

  // ---------------------------------------------------------------------
  // The capacity pass
  // ---------------------------------------------------------------------

  lemma {:induction false} FilterDistinct(ws: seq<Worker>, p: Worker -> bool)
    requires Distinct(ws)
    ensures Distinct(Filter(ws, p))
  {
    if ws != [] {
      assert forall j :: 0 <= j < |ws| - 1 ==> ws[1..][j] == ws[j + 1];
      FilterDistinct(ws[1..], p);
      var rest := Filter(ws[1..], p);
      FilterMember(ws[1..], p);
      forall j | 0 <= j < |rest| ensures rest[j].id != ws[0].id {
        assert rest[j] in ws[1..];
        var k :| 0 <= k < |ws[1..]| && ws[1..][k] == rest[j];
        assert ws[k + 1] == rest[j];
      }
      assert p(ws[0]) ==> Filter(ws, p) == [ws[0]] + rest;
    }
  }

  function HasRoom(req: Request): Worker -> bool {
    (w: Worker) => HasCapacity(w, req)
  }

  lemma FitsAreCapableWithRoom(ws: seq<Worker>, req: Request, until: map<string, real>, clock: string -> real)
    ensures Filter(Filter(ws, Capable(req, until, clock)), HasRoom(req)) == Fits(ws, req, until, clock)
  {
    hide Filter, HasCapacity, Healthy, Accepts;
    FilterNested(ws, Capable(req, until, clock), HasRoom(req), Fitting(req, until, clock));
  }

  /** After the first `k` capable workers were checked for capacity, the table
      has grown by those without. */
  ghost predicate GrownBy(early: map<string, Verdict>, excluded: map<string, Verdict>,
                          capable: seq<Worker>, k: int, req: Request)
    requires 0 <= k <= |capable|
  {
    && (forall id :: id in early ==> id in excluded && excluded[id] == early[id])
    && (forall j :: 0 <= j < k && !HasCapacity(capable[j], req) ==>
          capable[j].id in excluded && excluded[capable[j].id] == TooSmall)
    && (forall id :: id in excluded && id !in early ==> Small(capable, k, req, id))
  }

  /** One of the first `k` workers is called `id` and lacks capacity. */
  ghost predicate Small(capable: seq<Worker>, k: int, req: Request, id: string)
    requires k <= |capable|
  {
    exists j :: 0 <= j < k && capable[j].id == id && !HasCapacity(capable[j], req)
  }

  lemma GrownNext(early: map<string, Verdict>, excluded: map<string, Verdict>, next: map<string, Verdict>,
                  capable: seq<Worker>, k: nat, req: Request)
    requires Distinct(capable) && k < |capable| && GrownBy(early, excluded, capable, k, req)
    requires capable[k].id !in early
    requires next == if HasCapacity(capable[k], req) then excluded else excluded[capable[k].id := TooSmall]
    ensures GrownBy(early, next, capable, k + 1, req)
  {
    hide HasCapacity;
    forall id | id in next && id !in early ensures Small(capable, k + 1, req, id) {
      if id in excluded {
        assert Small(capable, k, req, id);
      } else {
        assert capable[k].id == id;
      }
    }
  }

  /** A worker found capable is in the list, and not in the early table. */
  lemma CapableIndex(ws: seq<Worker>, k: nat, req: Request, until: map<string, real>, clock: string -> real)
    returns (j: nat)
    requires k < |ws| && Capable(req, until, clock)(ws[k])
    ensures j < |Filter(ws, Capable(req, until, clock))| && Filter(ws, Capable(req, until, clock))[j] == ws[k]
  {
    hide Filter, Judge;
    FilterMember(ws, Capable(req, until, clock));
    assert ws[k] in ws;
    j :| 0 <= j < |Filter(ws, Capable(req, until, clock))| && Filter(ws, Capable(req, until, clock))[j] == ws[k];
  }

  lemma CapableNotListed(ws: seq<Worker>, capable: seq<Worker>, j: nat, excluded: map<string, Verdict>, req: Request,
                         until: map<string, real>, clock: string -> real)
    requires capable == Filter(ws, Capable(req, until, clock)) && j < |capable|
    requires ExcludesUpTo(excluded, ws, |ws|, req, until, clock, true)
    ensures capable[j].id !in excluded && capable[j] in ws
  {
    hide Filter, Judge;
    FilterMember(ws, Capable(req, until, clock));
    assert capable[j] in capable;
    var k :| 0 <= k < |ws| && ws[k] == capable[j];
    assert Lists(excluded, ws[k].id, Judge(ws[k], req, until, clock), true);
    assert Capable(req, until, clock)(ws[k]);
  }

  /** One capable worker in the grown table. */
  lemma GrownAt(early: map<string, Verdict>, excluded: map<string, Verdict>, capable: seq<Worker>, j: nat, req: Request)
    requires Distinct(capable) && j < |capable| && capable[j].id !in early
    requires GrownBy(early, excluded, capable, |capable|, req)
    ensures if HasCapacity(capable[j], req) then capable[j].id !in excluded
            else capable[j].id in excluded && excluded[capable[j].id] == TooSmall
  {
    hide HasCapacity;
    if HasCapacity(capable[j], req) {
      assert !Small(capable, |capable|, req, capable[j].id);
    }
  }

  /** One worker in the grown table. */
  lemma GrownLists(early: map<string, Verdict>, excluded: map<string, Verdict>, ws: seq<Worker>, capable: seq<Worker>,
                   k: nat, req: Request, until: map<string, real>, clock: string -> real)
    requires Distinct(ws) && capable == Filter(ws, Capable(req, until, clock)) && k < |ws|
    requires Lists(early, ws[k].id, Judge(ws[k], req, until, clock), true)
    requires GrownBy(early, excluded, capable, |capable|, req)
    ensures Lists(excluded, ws[k].id, Judge(ws[k], req, until, clock), false)
  {
    hide Filter, HasCapacity, Accepts, Healthy, Distinct, Small;
    var v := Judge(ws[k], req, until, clock);
    if v == Fit || v == TooSmall {
      var j := CapableIndex(ws, k, req, until, clock);
      FilterDistinct(ws, Capable(req, until, clock));
      hide GrownBy;
      GrownAt(early, excluded, capable, j, req);
    }
  }

  /** The early table grown by the capacity pass is the full table. */
  lemma GrownIsFull(early: map<string, Verdict>, excluded: map<string, Verdict>, ws: seq<Worker>, capable: seq<Worker>,
                    req: Request, until: map<string, real>, clock: string -> real)
    requires Distinct(ws) && capable == Filter(ws, Capable(req, until, clock))
    requires ExcludesUpTo(early, ws, |ws|, req, until, clock, true)
    requires GrownBy(early, excluded, capable, |capable|, req)
    ensures ExcludesUpTo(excluded, ws, |ws|, req, until, clock, false)
  {
    hide Filter, HasCapacity, Judge, Lists, Distinct;
    forall k | 0 <= k < |ws| ensures Lists(excluded, ws[k].id, Judge(ws[k], req, until, clock), false) {
      GrownLists(early, excluded, ws, capable, k, req, until, clock);
    }
    forall id | id in excluded ensures Appears(ws, |ws|, id) {
      if id !in early {
        var j :| 0 <= j < |capable| && capable[j].id == id;
        CapableNotListed(ws, capable, j, early, req, until, clock);
        var k :| 0 <= k < |ws| && ws[k] == capable[j];
      }
    }
  }

  /** The scores of the first `k` capable workers that have the capacity. */
  ghost predicate Scoring(scored: seq<Scored>, capable: seq<Worker>, k: nat, req: Request)
    requires k <= |capable|
  {
    Map(scored, WorkerOf) == Filter(capable[..k], HasRoom(req)) && ScoresRight(scored, req)
  }

  lemma ScoreNext(scored: seq<Scored>, capable: seq<Worker>, k: nat, req: Request)
    requires k < |capable| && Scoring(scored, capable, k, req)
    ensures Scoring(if HasCapacity(capable[k], req) then scored + [Scored(Local(capable[k], req), capable[k])] else scored,
                    capable, k + 1, req)
  {
    hide HasCapacity, Local, Filter, Map;
    FilterNext(capable, k, HasRoom(req));
    var s := Scored(Local(capable[k], req), capable[k]);
    MapConcat(scored, [s], WorkerOf);
    assert Map([s], WorkerOf) == [capable[k]];
    assert scored + [s] == scored + [s];
  }

  // ---------------------------------------------------------------------
  // Taking workers out of the table and putting them back
  // ---------------------------------------------------------------------

  /** The workers not yet tried, in table order. */
  function Untried(ws: seq<Worker>, tried: set<string>): seq<Worker> {
    Filter(ws, Outside(tried))
  }

  lemma {:induction false} DistinctOnce(ws: seq<Worker>, x: Worker)
    requires Distinct(ws)
    ensures multiset(ws)[x] <= 1
  {
    if ws != [] {
      assert ws == [ws[0]] + ws[1..];
      assert forall j :: 0 <= j < |ws| - 1 ==> ws[1..][j] == ws[j + 1];
      DistinctOnce(ws[1..], x);
    }
  }

  lemma PermutedDistinct(a: seq<Worker>, b: seq<Worker>)
    requires Distinct(a) && multiset(a) == multiset(b)
    ensures Distinct(b)
  {
    forall i, j | 0 <= i < j < |b| ensures b[i].id != b[j].id {
      if b[i].id == b[j].id {
        assert b[i] in multiset(a) && b[j] in multiset(a);
        assert b[i] == b[j];
        assert b == b[..j] + [b[j]] + b[j + 1..];
        assert b[i] in b[..j];
        DistinctOnce(a, b[i]);
        assert false;
      }
    }
  }

  lemma UntriedMore(ws: seq<Worker>, tried: set<string>, id: string)
    ensures Untried(Untried(ws, tried), {id}) == Untried(ws, tried + {id})
  {
    hide Filter;
    FilterNested(ws, Outside(tried), Outside({id}), Outside(tried + {id}));
  }

  lemma UntriedAll(ws: seq<Worker>, tried: set<string>)
    requires forall w :: w in ws ==> w.id !in tried
    ensures Untried(ws, tried) == ws
  {
    hide Filter;
    FilterAll(ws, Outside(tried));
  }

  lemma UntriedMember(ws: seq<Worker>, tried: set<string>)
    ensures forall w :: w in Untried(ws, tried) <==> w in ws && w.id !in tried
  {
    hide Filter;
    FilterMember(ws, Outside(tried));
  }

  /** Popping one worker into the saved list keeps the contents. */
  lemma PopKeeps(all: seq<Worker>, ws: seq<Worker>, saved: seq<Worker>, id: string, hit: Worker)
    requires SameWorkers(all, ws + saved) && hit in ws && hit.id == id
    ensures SameWorkers(all, Untried(ws, {id}) + (saved + [hit]))
  {
    var there := Filter(ws, Named(id));
    OnlyHit(ws, saved, id, hit);
    hide Filter;
    FilterSplits(ws, Named(id), Outside({id}));
    var next := Untried(ws, {id}) + (saved + [hit]);
    assert multiset(next) == multiset(ws + saved);
    PermutedDistinct(ws + saved, next);
  }

  lemma SameId(ws: seq<Worker>, i: nat, j: nat)
    requires Distinct(ws) && i < |ws| && j < |ws| && ws[i].id == ws[j].id
    ensures i == j
  {
  }

  lemma Hit(there: seq<Worker>, k: nat, i: nat, id: string)
    requires Distinct(there) && k < |there| && i < |there| && forall w :: w in there ==> w.id == id
    ensures k == i
  {
    SameId(there, k, i);
  }

  lemma OnlyHit(ws: seq<Worker>, saved: seq<Worker>, id: string, hit: Worker)
    requires Distinct(ws + saved) && hit in ws && hit.id == id
    ensures Filter(ws, Named(id)) == [hit]
  {
    assert forall j :: 0 <= j < |ws| ==> ws[j] == (ws + saved)[j];
    FilterDistinct(ws, Named(id));
    FilterMember(ws, Named(id));
    hide Filter;
    var there := Filter(ws, Named(id));
    assert forall w :: w in there ==> Named(id)(w);
    var i :| 0 <= i < |there| && there[i] == hit;
    Hit(there, 0, i, id);
    Hit(there, |there| - 1, i, id);
  }

  /** Putting the saved workers back leaves the untried ones in their order. */
  lemma RestoreKeepsUntried(all: seq<Worker>, tried: set<string>, saved: seq<Worker>)
    requires forall w :: w in saved ==> w.id in tried
    ensures Untried(Untried(all, tried) + saved, tried) == Untried(all, tried)
  {
    hide Filter;
    UntriedMember(all, tried);
    UntriedAll(Untried(all, tried), tried);
    FilterConcat(Untried(all, tried), saved, Outside(tried));
    FilterNone(saved, Outside(tried));
  }

  // ---------------------------------------------------------------------
  // Facts for the server
  // ---------------------------------------------------------------------

  /** The verdict of the first pass, where capacity is not looked at. */
  lemma EarlyVerdict(w: Worker, req: Request, until: map<string, real>, clock: string -> real, verdict: Verdict)
    requires verdict == if !Accepts(w, req) then Refused
                        else if !Healthy(until, w.id, clock(w.id)) then Degraded else Fit
    ensures Capable(req, until, clock)(w) <==> verdict == Fit
    ensures Out(Judge(w, req, until, clock), true) <==> verdict != Fit
    ensures verdict != Fit ==> verdict == Judge(w, req, until, clock)
  {
    hide HasCapacity, Healthy, Accepts;
  }

  lemma ScoringDone(scored: seq<Scored>, capable: seq<Worker>, req: Request)
    requires Scoring(scored, capable, |capable|, req)
    ensures Map(scored, WorkerOf) == Filter(capable, HasRoom(req)) && ScoresRight(scored, req)
  {
    hide Map, Filter, ScoresRight;
    assert capable[..|capable|] == capable;
  }

  lemma GrownStarts(early: map<string, Verdict>, capable: seq<Worker>, req: Request)
    ensures GrownBy(early, early, capable, 0, req)
  {
  }

  lemma IsRouted(d: Decision, ws: seq<Worker>, req: Request, before: map<string, real>, after: map<string, real>,
                 clock: string -> real)
    requires multiset(d.candidates) == multiset(Ids(Fits(ws, req, before, clock)))
    requires ExcludesUpTo(d.excluded, ws, |ws|, req, before, clock, false)
    requires Chooses(d, Fits(ws, req, before, clock), req) && Sweeps(before, after, ws, |ws|, req, clock)
    ensures Routed(d, ws, req, before, after, clock)
  {
    hide Ids, Fits, ExcludesUpTo, Chooses, Sweeps;
  }

  lemma SameSelf(ws: seq<Worker>)
    requires Distinct(ws)
    ensures SameWorkers(ws, ws)
  {
  }

  lemma PartDistinct(all: seq<Worker>, ws: seq<Worker>, saved: seq<Worker>)
    requires SameWorkers(all, ws + saved)
    ensures Distinct(ws) && Distinct(ws + saved)
  {
    assert forall j :: 0 <= j < |ws| ==> ws[j] == (ws + saved)[j];
  }
}
