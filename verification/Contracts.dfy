// The fail-closed contract report over the canonical validator
// (src/geonexus/geocard/contracts.py).
module Contracts {
  import opened Wrappers
  import opened Validator
  import Text

  datatype Units = Units(name: string, units: string)

  datatype Request = Request(bbox: seq<real>, crs: string, start: string, end: string, bands: seq<string>,
                             units: seq<Units>, resolution: Option<real>, jurisdiction: string, exporting: bool)

  datatype RequestError = BadShape | NotIncreasing | Unreadable | MixedZones | Backwards

  /** What a request must be like to exist at all. */
  predicate WellFormed(req: Request, world: World) {
    && |req.bbox| == 4 && (req.resolution.Some? ==> req.resolution.value > 0.0)
    && req.bbox[0] < req.bbox[2] && req.bbox[1] < req.bbox[3]
    && world.instant(req.start).Some? && world.instant(req.end).Some?
    && world.aware(req.start) == world.aware(req.end)
    && world.instant(req.start).value <= world.instant(req.end).value
  }

  method CheckRequest(req: Request, world: World) returns (r: Result<Request, RequestError>)
    ensures r.Ok? <==> WellFormed(req, world)
    ensures r.Ok? ==> r.value == req
  {
    if |req.bbox| != 4 || (req.resolution.Some? && req.resolution.value <= 0.0) {
      return Err(BadShape);
    }
    if req.bbox[0] >= req.bbox[2] || req.bbox[1] >= req.bbox[3] {
      return Err(NotIncreasing);
    }
    var start, end := world.instant(req.start), world.instant(req.end);
    if start.None? || end.None? {
      return Err(Unreadable);
    }
    if world.aware(req.start) != world.aware(req.end) {
      return Err(MixedZones);
    }
    if start.value > end.value {
      return Err(Backwards);
    }
    return Ok(req);
  }

  // ---------------------------------------------------------------------
  // The report
  // ---------------------------------------------------------------------

  datatype Status = Pass | Fail | Unknown

  datatype Code = Crs | Extent | Time | Bands | Resolution | UnitsOf(name: string) | Policy

  datatype Finding = Finding(code: Code, status: Status)

  datatype Report = Report(valid: bool, findings: seq<Finding>)

  const NOTHING := Query(None, None, None, None, [], None)

  /** The separate checks, in the order of the report. */
  function Checks(req: Request): seq<(Code, Query)> {
    [(Crs, NOTHING.(crs := Some(req.crs))),
     (Extent, NOTHING.(bbox := Some(req.bbox), crs := Some(req.crs))),
     (Time, NOTHING.(start := Some(req.start), end := Some(req.end))),
     (Bands, NOTHING.(bands := req.bands))]
    + if req.resolution.Some? then [(Resolution, NOTHING.(resolution := req.resolution))] else []
  }

  /** One combined check for everything the request asks of the validator. */
  function Combined(req: Request): Query {
    Query(Some(req.bbox), Some(req.crs), Some(req.start), Some(req.end), req.bands, req.resolution)
  }

  ghost function StatusOf(said: Said, world: World): Status {
    if !Satisfied(said, world) then Fail else if said.warnings != [] then Unknown else Pass
  }

  /** The last band of that name, up to letter case. */
  function BandNamed(bands: seq<Band>, name: string, world: World): Option<Band> {
    if bands == [] then None
    else
      var later := BandNamed(bands[1..], name, world);
      if later.Some? then later
      else if world.lower(bands[0].name) == world.lower(name) then Some(bands[0]) else None
  }

  function UnitsStatus(card: Card, u: Units, world: World): Status {
    var b := BandNamed(card.bands, u.name, world);
    if b.None? || !Given(b.value.units) then Unknown
    else if b.value.units.value == u.units then Pass else Fail
  }

  /** The card's sovereignty policy lets the request through without any
      further authorization. */
  predicate PolicyAllows(card: Card, req: Request) {
    && card.compliance.Some? && Given(card.compliance.value.sovereignty)
    && card.compliance.value.sovereignty.value == req.jurisdiction
    && card.compliance.value.restrictions <= {"no-export"}
    && !(req.exporting && "no-export" in card.compliance.value.restrictions)
    && (card.compliance.value.sensitivity.Some? ==> card.compliance.value.sensitivity.value == "public")
  }

  method PolicyStatus(card: Card, req: Request) returns (policy: Status)
    ensures policy == Pass <==> PolicyAllows(card, req)
    ensures policy == Fail <==>
      && card.compliance.Some? && Given(card.compliance.value.sovereignty)
      && (card.compliance.value.sovereignty.value != req.jurisdiction
          || (req.exporting && "no-export" in card.compliance.value.restrictions))
  {
    policy := Unknown;
    if card.compliance.Some? && Given(card.compliance.value.sovereignty) {
      var c := card.compliance.value;
      policy := Pass;
      if c.sovereignty.value != req.jurisdiction {
        policy := Fail;
      }
      if req.exporting && "no-export" in c.restrictions {
        policy := Fail;
      }
      var others := c.restrictions - {"no-export"};
      assert others == {} <==> c.restrictions <= {"no-export"};
      if others != {} || !(c.sensitivity.None? || c.sensitivity.value == "public") {
        policy := if policy == Pass then Unknown else policy;
      }
    }
  }

  /** Every unit is the declared one. */
  predicate UnitsMatch(card: Card, req: Request, world: World) {
    forall u :: u in req.units ==> UnitsStatus(card, u, world) == Pass
  }

  /** The report is valid exactly if one combined check is satisfied without
      warnings, the units match and the policy lets the request through. */
  ghost predicate Valid(card: Card, req: Request, world: World) {
    && StatusOf(All5(card, Combined(req), world), world) == Pass
    && UnitsMatch(card, req, world)
    && PolicyAllows(card, req)
  }

  /** The separate checks say no more and no less than the combined one. */
  lemma SeparateIsCombined(card: Card, req: Request, world: World)
    ensures (forall c :: c in Checks(req) ==> StatusOf(All5(card, c.1, world), world) == Pass)
       <==> StatusOf(All5(card, Combined(req), world), world) == Pass
  {
    hide ReadsAsFailure, OnCrs, OnTime, OnBands, OnResolution, OnBox;
    var q := Combined(req);
    var cs := Checks(req);
    Parts(card, q, world);
    forall c | c in cs ensures StatusOf(All5(card, c.1, world), world) == Pass <==> PartsPass(card, c.1, world) {
      Parts(card, c.1, world);
    }
    NothingSaid(card, req, world);
    assert cs[0] in cs && cs[1] in cs && cs[2] in cs && cs[3] in cs;
    if req.resolution.Some? {
      assert cs[4] in cs;
    }
  }

  ghost predicate Fine(said: Said, world: World) {
    said.warnings == [] && Satisfied(said, world)
  }

  ghost predicate PartsPass(card: Card, q: Query, world: World) {
    && Fine(OnCrs(card, q, world), world) && Fine(OnBox(card, q, world), world) && Fine(OnTime(card, q, world), world)
    && Fine(OnBands(card, q, world), world) && Fine(OnResolution(card, q), world)
  }

  lemma BothFine(a: Said, b: Said, world: World)
    ensures Fine(a.Then(b), world) <==> Fine(a, world) && Fine(b, world)
  {
    hide ReadsAsFailure;
    assert forall r :: r in a.Then(b).reasons <==> r in a.reasons || r in b.reasons;
  }

  lemma Parts(card: Card, q: Query, world: World)
    ensures StatusOf(All5(card, q, world), world) == Pass <==> PartsPass(card, q, world)
  {
    hide Satisfied, OnCrs, OnBox, OnTime, OnBands, OnResolution;
    var a, b, c := OnCrs(card, q, world), OnBox(card, q, world), OnTime(card, q, world);
    var d, e := OnBands(card, q, world), OnResolution(card, q);
    BothFine(a, b, world);
    BothFine(a.Then(b), c, world);
    BothFine(a.Then(b).Then(c), d, world);
    BothFine(a.Then(b).Then(c).Then(d), e, world);
  }

  /** A part of a check depends on its own fields of the query only. */
  lemma SameParts(card: Card, a: Query, b: Query, world: World)
    ensures a.crs == b.crs ==> OnCrs(card, a, world) == OnCrs(card, b, world)
    ensures a.crs == b.crs && a.bbox == b.bbox ==> OnBox(card, a, world) == OnBox(card, b, world)
    ensures a.start == b.start && a.end == b.end ==> OnTime(card, a, world) == OnTime(card, b, world)
    ensures a.bands == b.bands ==> OnBands(card, a, world) == OnBands(card, b, world)
    ensures a.resolution == b.resolution ==> OnResolution(card, a) == OnResolution(card, b)
  {
    hide Overlap, Reproject, Missing;
  }

  lemma QuietParts(card: Card, a: Query, world: World)
    ensures a.crs.None? ==> OnCrs(card, a, world) == Quiet()
    ensures a.bbox.None? ==> OnBox(card, a, world) == Quiet()
    ensures a.start.None? && a.end.None? ==> OnTime(card, a, world) == Quiet()
    ensures a.bands == [] ==> OnBands(card, a, world) == Quiet()
    ensures a.resolution.None? ==> OnResolution(card, a) == Quiet()
  {
    hide Overlap, Reproject, Missing;
  }

  /** A check without a part says nothing about it, and with it the same as
      the combined check. */
  lemma NothingSaid(card: Card, req: Request, world: World)
    ensures forall c :: c in Checks(req) ==>
      && OnCrs(card, c.1, world) == (if c.0.Crs? || c.0.Extent? then OnCrs(card, Combined(req), world) else Quiet())
      && OnBox(card, c.1, world) == (if c.0.Extent? then OnBox(card, Combined(req), world) else Quiet())
      && OnTime(card, c.1, world) == (if c.0.Time? then OnTime(card, Combined(req), world) else Quiet())
      && OnBands(card, c.1, world) == (if c.0.Bands? then OnBands(card, Combined(req), world) else Quiet())
      && OnResolution(card, c.1) == (if c.0.Resolution? then OnResolution(card, Combined(req)) else Quiet())
    ensures req.resolution.None? ==> OnResolution(card, Combined(req)) == Quiet()
  {
    hide OnCrs, OnBox, OnTime, OnBands, OnResolution;
    QuietParts(card, Combined(req), world);
    forall c | c in Checks(req)
      ensures OnCrs(card, c.1, world) == (if c.0.Crs? || c.0.Extent? then OnCrs(card, Combined(req), world) else Quiet())
      ensures OnBox(card, c.1, world) == (if c.0.Extent? then OnBox(card, Combined(req), world) else Quiet())
      ensures OnTime(card, c.1, world) == (if c.0.Time? then OnTime(card, Combined(req), world) else Quiet())
      ensures OnBands(card, c.1, world) == (if c.0.Bands? then OnBands(card, Combined(req), world) else Quiet())
      ensures OnResolution(card, c.1) == (if c.0.Resolution? then OnResolution(card, Combined(req)) else Quiet())
    {
      SameParts(card, c.1, Combined(req), world);
      QuietParts(card, c.1, world);
    }
  }

  /** The findings: one for each separate check, one for each unit, and the
      policy. */
  ghost predicate FindingsOf(findings: seq<Finding>, card: Card, req: Request, world: World) {
    var n := |Checks(req)|;
    && |findings| == n + |req.units| + 1
    && (forall i :: 0 <= i < n ==>
          findings[i] == Finding(Checks(req)[i].0, StatusOf(All5(card, Checks(req)[i].1, world), world)))
    && (forall i :: 0 <= i < |req.units| ==>
          findings[n + i] == Finding(UnitsOf(req.units[i].name), UnitsStatus(card, req.units[i], world)))
    && findings[n + |req.units|].code == Policy
    && (findings[n + |req.units|].status == Pass <==> PolicyAllows(card, req))
  }

  lemma AllPass(findings: seq<Finding>, card: Card, req: Request, world: World)
    requires FindingsOf(findings, card, req, world)
    ensures (forall f :: f in findings ==> f.status == Pass) <==> Valid(card, req, world)
  {
    hide All5, StatusOf, UnitsStatus, PolicyAllows;
    var cs := Checks(req);
    var n := |cs|;
    SeparateIsCombined(card, req, world);
    if forall f :: f in findings ==> f.status == Pass {
      forall c | c in cs ensures StatusOf(All5(card, c.1, world), world) == Pass {
        var i :| 0 <= i < n && cs[i] == c;
        assert findings[i] in findings;
      }
      forall u | u in req.units ensures UnitsStatus(card, u, world) == Pass {
        var i :| 0 <= i < |req.units| && req.units[i] == u;
        assert findings[n + i] in findings;
      }
      assert findings[n + |req.units|] in findings;
    } else if Valid(card, req, world) {
      forall i | 0 <= i < |findings| ensures findings[i].status == Pass {
        if i < n {
          assert cs[i] in cs;
        } else if i < n + |req.units| {
          assert req.units[i - n] in req.units && findings[n + (i - n)] == findings[i];
        } else {
          assert i == n + |req.units|;
        }
      }
    }
  }

  /** The report is valid exactly if one combined check is satisfied without
      warnings, every unit is the declared one, and the policy allows the
      request. */
  method ValidateContract(card: Card, req: Request, world: World) returns (report: Report)
    ensures report.valid <==> Valid(card, req, world)
    ensures WellFormed(req, world) ==> (report.valid <==> Accepted(card, req, world))
    ensures FindingsOf(report.findings, card, req, world)
  {
    hide All5, UnitsStatus, PolicyAllows, Satisfied, Valid, Checks, Accepted, WellFormed;
    if WellFormed(req, world) {
      ValidExactly(card, req, world);
    }
    var checks, findings := Checks(req), [];
    var n := |checks|;
    var i := 0;
    while i < n
      invariant 0 <= i <= n == |checks| && |findings| == i
      invariant forall j :: 0 <= j < i ==>
        findings[j] == Finding(checks[j].0, StatusOf(All5(card, checks[j].1, world), world))
    {
      var outcome := Check(card, checks[i].1, world);
      var status := if !outcome.satisfied then Fail else if outcome.warnings != [] then Unknown else Pass;
      findings := findings + [Finding(checks[i].0, status)];
      i := i + 1;
    }
    i := 0;
    while i < |req.units|
      invariant 0 <= i <= |req.units| && |findings| == n + i
      invariant forall j :: 0 <= j < n ==>
        findings[j] == Finding(checks[j].0, StatusOf(All5(card, checks[j].1, world), world))
      invariant forall j :: 0 <= j < i ==>
        findings[n + j] == Finding(UnitsOf(req.units[j].name), UnitsStatus(card, req.units[j], world))
    {
      findings := findings + [Finding(UnitsOf(req.units[i].name), UnitsStatus(card, req.units[i], world))];
      i := i + 1;
    }
    var policy := PolicyStatus(card, req);
    findings := findings + [Finding(Policy, policy)];
    AllPass(findings, card, req, world);
    report := Report(forall f :: f in findings ==> f.status == Pass, findings);
  }

  // ---------------------------------------------------------------------
  // What a valid report means
  // ---------------------------------------------------------------------

  /** Some point lies in both boxes. */
  ghost predicate ShareAPoint(a: seq<real>, b: seq<real>)
    requires |a| >= 4 && |b| >= 4
  {
    exists x: real, y: real :: InBox(x, y, a) && InBox(x, y, b)
  }

  predicate InBox(x: real, y: real, box: seq<real>)
    requires |box| >= 4
  {
    box[0] <= x <= box[2] && box[1] <= y <= box[3]
  }

  /** Some instant lies in both windows. */
  ghost predicate ShareAnInstant(a0: int, a1: int, b0: int, b1: int) {
    exists t: int :: Within(t, a0, a1) && Within(t, b0, b1)
  }

  predicate Within(t: int, from: int, to: int) {
    from <= t <= to
  }

  lemma OverlapSharesExactly(a: seq<real>, b: seq<real>)
    requires |a| >= 4 && |b| >= 4 && b[0] < b[2] && b[1] < b[3] && Overlap(a, b)
    ensures ShareAPoint(a, b) <==> a[0] <= a[2] && a[1] <= a[3]
  {
    if a[0] <= a[2] && a[1] <= a[3] {
      var x, y := Max(a[0], b[0]), Max(a[1], b[1]);
      assert InBox(x, y, a) && InBox(x, y, b);
    }
  }

  lemma WindowsShareExactly(a0: int, a1: int, b0: int, b1: int)
    requires b0 <= b1 && a0 <= b1 && b0 <= a1
    ensures ShareAnInstant(a0, a1, b0, b1) <==> a0 <= a1
  {
    if a0 <= a1 {
      var t := if a0 > b0 then a0 else b0;
      assert Within(t, a0, a1) && Within(t, b0, b1);
    }
  }

  /** A valid report: nothing was left undeclared, the reference systems
      agree, the boxes and the windows share a point exactly if the card's own
      are in order, and bands and resolution are there. A card box of fewer
      than four values is not compared at all. */
  lemma ValidMeans(card: Card, req: Request, world: World)
    requires WellFormed(req, world) && Valid(card, req, world)
    ensures card.crs.Some? && world.equivalent(card.crs.value, req.crs)
    ensures card.bbox.Some? && (|card.bbox.value| >= 4 ==>
      (ShareAPoint(card.bbox.value, req.bbox) <==>
         card.bbox.value[0] <= card.bbox.value[2] && card.bbox.value[1] <= card.bbox.value[3]))
    ensures card.start.Some? && card.end.Some?
    ensures world.instant(card.start.value).Some? && world.instant(card.end.value).Some?
    ensures Given(Some(req.start)) && Given(Some(req.end)) ==>
      (ShareAnInstant(world.instant(card.start.value).value, world.instant(card.end.value).value,
                      world.instant(req.start).value, world.instant(req.end).value)
       <==> world.instant(card.start.value).value <= world.instant(card.end.value).value)
    ensures forall n :: n in req.bands ==> Provides(card, n, world)
    ensures req.resolution.Some? ==>
      card.resolution.Some? && card.resolution.value <= req.resolution.value + TOLERANCE
  {
    var q := Combined(req);
    Parts(card, q, world);
    ValidSpace(card, req, world);
    ValidTime(card, req, world);
    ValidRest(card, req, world);
  }

  lemma FirstFourShare(small: seq<real>, box: seq<real>, b: seq<real>)
    requires |small| >= 4 && |box| >= 4 && |b| >= 4 && small[..4] == box[..4]
    ensures ShareAPoint(small, b) == ShareAPoint(box, b)
  {
    assert forall i :: 0 <= i < 4 ==> small[i] == small[..4][i] == box[..4][i] == box[i];
    assert forall x: real, y: real :: InBox(x, y, small) == InBox(x, y, box);
  }

  lemma ValidSpace(card: Card, req: Request, world: World)
    requires WellFormed(req, world) && PartsPass(card, Combined(req), world)
    ensures card.crs.Some? && world.equivalent(card.crs.value, req.crs)
    ensures card.bbox.Some? && (|card.bbox.value| >= 4 ==>
      (ShareAPoint(card.bbox.value, req.bbox) <==>
         card.bbox.value[0] <= card.bbox.value[2] && card.bbox.value[1] <= card.bbox.value[3]))
  {
    hide OnTime, OnBands, OnResolution, Overlap, ShareAPoint, HasWord;
    var q := Combined(req);
    var crs, box := OnCrs(card, q, world), OnBox(card, q, world);
    assert Fine(crs, world) && Fine(box, world);
    if crs.reasons != [] {
      assert crs.reasons[0] in crs.reasons;
    }
    assert !NeedsReprojection(card, q, world);
    if |card.bbox.value| >= 4 {
      var small := First4(card.bbox.value);
      assert box.reasons[0] in box.reasons;
      assert Overlap(small, req.bbox);
      OverlapSharesExactly(small, req.bbox);
      FirstFourShare(small, card.bbox.value, req.bbox);
    }
  }

  lemma ValidTime(card: Card, req: Request, world: World)
    requires WellFormed(req, world) && PartsPass(card, Combined(req), world)
    ensures card.start.Some? && card.end.Some?
    ensures world.instant(card.start.value).Some? && world.instant(card.end.value).Some?
    ensures Given(Some(req.start)) && Given(Some(req.end)) ==>
      (ShareAnInstant(world.instant(card.start.value).value, world.instant(card.end.value).value,
                      world.instant(req.start).value, world.instant(req.end).value)
       <==> world.instant(card.start.value).value <= world.instant(card.end.value).value)
  {
    hide OnCrs, OnBox, OnBands, OnResolution, HasWord, ShareAnInstant;
    var said := OnTime(card, Combined(req), world);
    assert Fine(said, world);
    if said.reasons != [] {
      assert said.reasons[0] in said.reasons;
    }
    if Given(Some(req.start)) && Given(Some(req.end)) {
      WindowsShareExactly(world.instant(card.start.value).value, world.instant(card.end.value).value,
                          world.instant(req.start).value, world.instant(req.end).value);
    }
  }

  lemma ValidRest(card: Card, req: Request, world: World)
    requires PartsPass(card, Combined(req), world)
    ensures forall n :: n in req.bands ==> Provides(card, n, world)
    ensures req.resolution.Some? ==>
      card.resolution.Some? && card.resolution.value <= req.resolution.value + TOLERANCE
  {
    hide OnCrs, OnBox, OnTime, HasWord, Provides;
    var bands, resolution := OnBands(card, Combined(req), world), OnResolution(card, Combined(req));
    assert Fine(bands, world) && Fine(resolution, world);
    if bands.reasons != [] {
      assert bands.reasons[0] in bands.reasons;
    }
    if resolution.reasons != [] {
      assert resolution.reasons[0] in resolution.reasons;
    }
  }

  lemma CrsPassesExactly(card: Card, q: Query, world: World)
    requires q.crs.Some?
    ensures Fine(OnCrs(card, q, world), world) <==>
      && card.crs.Some? && world.equivalent(card.crs.value, q.crs.value)
      && !HasWord(card.crs.value) && !HasWord(q.crs.value)
  {
    hide HasWord;
    var crs := OnCrs(card, q, world);
    if crs.reasons != [] {
      assert crs.reasons[0] in crs.reasons;
    }
  }

  /** The box part passes without a warning exactly if the card has a box that
      overlaps and no reprojection is called for, or one too short to compare. */
  lemma BoxPassesExactly(card: Card, q: Query, world: World)
    requires q.bbox.Some? && |q.bbox.value| >= 4
    ensures Fine(OnBox(card, q, world), world) <==>
      && card.bbox.Some?
      && (|card.bbox.value| < 4
          || (!NeedsReprojection(card, q, world) && Overlap(card.bbox.value, q.bbox.value)))
  {
    hide HasWord, Reproject, NeedsReprojection;
    var box := OnBox(card, q, world);
    if box.reasons != [] {
      assert box.reasons[0] in box.reasons;
    }
  }

  /** The card declares a window, and its bounds and those of the query are
      times. */
  predicate TimesReadable(card: Card, q: Query, world: World) {
    && Given(card.start) && Given(card.end)
    && world.instant(card.start.value).Some? && world.instant(card.end.value).Some?
    && (Given(q.start) ==> world.instant(q.start.value).Some?)
    && (Given(q.end) ==> world.instant(q.end.value).Some?)
  }

  /** The window of the card is in order, and that of the query if it has both bounds. */
  predicate WindowsInOrder(card: Card, q: Query, world: World)
    requires TimesReadable(card, q, world)
  {
    && world.instant(card.start.value).value <= world.instant(card.end.value).value
    && (Given(q.start) && Given(q.end) ==> world.instant(q.start.value).value <= world.instant(q.end.value).value)
  }

  /** Some instant lies in the window of the card and within the bounds the query gives. */
  ghost predicate SomeInstantServes(card: Card, q: Query, world: World)
    requires TimesReadable(card, q, world)
  {
    exists t: int :: Within(t, world.instant(card.start.value).value, world.instant(card.end.value).value)
                     && Serves(t, q, world)
  }

  predicate Serves(t: int, q: Query, world: World)
    requires Given(q.start) ==> world.instant(q.start.value).Some?
    requires Given(q.end) ==> world.instant(q.end.value).Some?
  {
    && (Given(q.start) ==> world.instant(q.start.value).value <= t)
    && (Given(q.end) ==> t <= world.instant(q.end.value).value)
  }

  /** No bound of the two windows has a verdict word in its text. */
  predicate NoWordInTimes(card: Card, q: Query) {
    && (card.start.Some? ==> !HasWord(card.start.value)) && (card.end.Some? ==> !HasWord(card.end.value))
    && (Given(q.start) ==> !HasWord(q.start.value)) && (Given(q.end) ==> !HasWord(q.end.value))
  }

  /** For windows in order, the time part passes without a warning exactly if
      all times can be read and some instant serves. */
  lemma TimePassesExactly(card: Card, q: Query, world: World)
    requires q.start.Some? || q.end.Some?
    requires TimesReadable(card, q, world) ==> WindowsInOrder(card, q, world)
    ensures Fine(OnTime(card, q, world), world) <==>
      TimesReadable(card, q, world) && SomeInstantServes(card, q, world) && NoWordInTimes(card, q)
  {
    NoWordInStar();
    hide HasWord;
    var said := OnTime(card, q, world);
    if said.reasons != [] {
      assert said.reasons[0] in said.reasons;
    }
    if TimesReadable(card, q, world) {
      var from, to := world.instant(card.start.value).value, world.instant(card.end.value).value;
      var t := if Given(q.start) && world.instant(q.start.value).value > from then world.instant(q.start.value).value
               else from;
      assert said.reasons != [] && said.reasons[0].TemporalOverlap? ==> Within(t, from, to) && Serves(t, q, world);
    }
  }

  /** The bands part passes without a warning exactly if the card provides every
      band, whatever the letter case, and no name of a band is a verdict. */
  lemma BandsPassExactly(card: Card, q: Query, world: World)
    requires q.bands != []
    ensures Fine(OnBands(card, q, world), world) <==>
      forall n :: n in q.bands ==> Provides(card, n, world) && !HasWord(world.quote(n))
  {
    hide HasWord;
    var said := OnBands(card, q, world);
    if said.reasons != [] {
      assert said.reasons[0] in said.reasons;
    }
    assert q.bands[0] in q.bands;
  }

  /** The extent finding passes exactly if the reference systems are declared
      and agree, without a verdict word in their names, and the card has a box
      that either overlaps or has fewer than four values: a box too short to
      compare is waved through. */
  lemma ExtentPassesExactly(card: Card, req: Request, world: World)
    requires WellFormed(req, world)
    ensures StatusOf(All5(card, Checks(req)[1].1, world), world) == Pass <==>
      && card.crs.Some? && world.equivalent(card.crs.value, req.crs)
      && !HasWord(card.crs.value) && !HasWord(req.crs)
      && card.bbox.Some?
      && (|card.bbox.value| < 4 || Overlap(card.bbox.value, req.bbox))
  {
    hide HasWord, Overlap, StatusOf, All5, OnCrs, OnBox, OnTime, OnBands, OnResolution;
    var q := Checks(req)[1].1;
    Parts(card, q, world);
    QuietParts(card, q, world);
    CrsPassesExactly(card, q, world);
    if card.crs.Some? && world.equivalent(card.crs.value, req.crs) {
      BoxPassesExactly(card, q, world);
    }
  }

  /** A card with an empty box in the reference system of the request: its
      extent passes, wherever the request is. */
  lemma EmptyBoxPasses(req: Request, world: World)
    requires WellFormed(req, world) && req.crs == "EPSG:4326" && world.equivalent(req.crs, req.crs)
    ensures
      var card := Card(Some("EPSG:4326"), Some([]), None, None, None, [], None);
      StatusOf(All5(card, Checks(req)[1].1, world), world) == Pass
  {
    NoWordInCode();
    hide HasWord, StatusOf, All5;
    ExtentPassesExactly(Card(Some("EPSG:4326"), Some([]), None, None, None, [], None), req, world);
  }

  lemma NoWordInCode()
    ensures !HasWord("EPSG:4326")
  {
    PartAbsent("EPSG:4326", "mismatch");
    PartAbsent("EPSG:4326", "incompatible");
    PartAbsent("EPSG:4326", "cannot compare");
  }

  lemma PartAbsent(s: string, part: string)
    requires part != "" && part[0] !in s
    ensures !Text.Contains(s, part)
  {
    forall i: nat | i <= |s| ensures !Text.At(s, i, part) {
      if i + |part| <= |s| {
        assert s[i..i + |part|][0] == s[i];
      }
    }
  }

  // ---------------------------------------------------------------------
  // The verdict in terms of the card and the request alone
  // ---------------------------------------------------------------------

  /** The reference systems are declared and agree, and the card has a box that
      meets the requested one, or one too short to compare. */
  predicate AcceptsSpace(card: Card, req: Request, world: World)
    requires |req.bbox| == 4
  {
    && card.crs.Some? && world.equivalent(card.crs.value, req.crs)
    && !HasWord(card.crs.value) && !HasWord(req.crs)
    && card.bbox.Some?
    && (|card.bbox.value| >= 4 ==>
          && card.bbox.value[0] <= req.bbox[2] && req.bbox[0] <= card.bbox.value[2]
          && card.bbox.value[1] <= req.bbox[3] && req.bbox[1] <= card.bbox.value[3])
  }

  /** The card declares a window that can be read and meets the requested one. */
  predicate AcceptsTime(card: Card, req: Request, world: World)
    requires world.instant(req.start).Some? && world.instant(req.end).Some?
  {
    && card.start.Some? && card.start.value != "" && card.end.Some? && card.end.value != ""
    && world.instant(card.start.value).Some? && world.instant(card.end.value).Some?
    && (req.end != "" ==> world.instant(card.start.value).value <= world.instant(req.end).value)
    && (req.start != "" ==> world.instant(req.start).value <= world.instant(card.end.value).value)
    && !HasWord(card.start.value) && !HasWord(card.end.value)
    && (req.start != "" ==> !HasWord(req.start)) && (req.end != "" ==> !HasWord(req.end))
  }

  /** Some band of the card has each of the names, up to letter case. */
  ghost predicate AcceptsBands(card: Card, req: Request, world: World) {
    forall n :: n in req.bands ==>
      !HasWord(world.quote(n)) && exists b :: b in card.bands && world.lower(b.name) == world.lower(n)
  }

  /** The resolution of the card is as fine as required, up to a billionth. */
  predicate AcceptsResolution(card: Card, req: Request) {
    req.resolution.Some? ==>
      card.resolution.Some? && card.resolution.value - req.resolution.value <= 1.0 / 1000000000.0
  }

  /** Band `i` is the last of that name, up to letter case. */
  ghost predicate LastNamed(bands: seq<Band>, name: string, world: World, i: int) {
    && 0 <= i < |bands| && world.lower(bands[i].name) == world.lower(name)
    && forall j :: i < j < |bands| ==> world.lower(bands[j].name) != world.lower(name)
  }

  /** The last band of that name declares exactly these units. */
  ghost predicate DeclaresUnits(card: Card, u: Units, world: World) {
    u.units != "" && exists i :: LastNamed(card.bands, u.name, world, i) && card.bands[i].units == Some(u.units)
  }

  /** The policy is declared, names the jurisdiction of the request, restricts
      nothing but exports and no export asked for, and is not about sensitive data. */
  predicate AcceptsPolicy(card: Card, req: Request) {
    && card.compliance.Some?
    && var c := card.compliance.value;
       && c.sovereignty.Some? && c.sovereignty.value != "" && c.sovereignty.value == req.jurisdiction
       && (forall r :: r in c.restrictions ==> r == "no-export" && !req.exporting)
       && (c.sensitivity.None? || c.sensitivity.value == "public")
  }

  ghost predicate Accepted(card: Card, req: Request, world: World)
    requires WellFormed(req, world)
  {
    && AcceptsSpace(card, req, world) && AcceptsTime(card, req, world) && AcceptsBands(card, req, world)
    && AcceptsResolution(card, req) && (forall u :: u in req.units ==> DeclaresUnits(card, u, world))
    && AcceptsPolicy(card, req)
  }

  /** When a report is valid. */
  lemma ValidExactly(card: Card, req: Request, world: World)
    requires WellFormed(req, world)
    ensures Valid(card, req, world) <==> Accepted(card, req, world)
  {
    hide StatusOf, All5, OnCrs, OnBox, OnTime, OnBands, OnResolution, UnitsStatus, Fine, PolicyAllows,
         DeclaresUnits, AcceptsSpace, AcceptsTime, AcceptsBands, AcceptsResolution, AcceptsPolicy, WellFormed;
    Parts(card, Combined(req), world);
    SpaceExactly(card, req, world);
    TimeExactly(card, req, world);
    RestExactly(card, req, world);
    forall u | u in req.units ensures UnitsStatus(card, u, world) == Pass <==> DeclaresUnits(card, u, world) {
      UnitsPassExactly(card, u, world);
    }
    PolicyExactly(card, req);
  }

  lemma SpaceExactly(card: Card, req: Request, world: World)
    requires WellFormed(req, world)
    ensures |req.bbox| == 4
    ensures Fine(OnCrs(card, Combined(req), world), world) && Fine(OnBox(card, Combined(req), world), world)
       <==> AcceptsSpace(card, req, world)
  {
    hide HasWord, OnCrs, OnBox, Fine;
    CrsPassesExactly(card, Combined(req), world);
    BoxPassesExactly(card, Combined(req), world);
  }

  lemma TimeExactly(card: Card, req: Request, world: World)
    requires WellFormed(req, world)
    ensures world.instant(req.start).Some? && world.instant(req.end).Some?
    ensures Fine(OnTime(card, Combined(req), world), world) <==> AcceptsTime(card, req, world)
  {
    NoWordInStar();
    hide HasWord;
    var said := OnTime(card, Combined(req), world);
    if said.reasons != [] {
      assert said.reasons[0] in said.reasons;
    }
  }

  lemma RestExactly(card: Card, req: Request, world: World)
    ensures Fine(OnBands(card, Combined(req), world), world) <==> AcceptsBands(card, req, world)
    ensures Fine(OnResolution(card, Combined(req)), world) <==> AcceptsResolution(card, req)
  {
    hide HasWord, OnBands;
    if req.bands == [] {
      QuietParts(card, Combined(req), world);
    } else {
      BandsPassExactly(card, Combined(req), world);
    }
    var said := OnResolution(card, Combined(req));
    if said.reasons != [] {
      assert said.reasons[0] in said.reasons;
    }
  }

  /** Units pass exactly if the last band of that name declares them; they stay
      unknown exactly if no band has the name or the last one declares none. */
  lemma UnitsPassExactly(card: Card, u: Units, world: World)
    ensures UnitsStatus(card, u, world) == Pass <==> DeclaresUnits(card, u, world)
    ensures UnitsStatus(card, u, world) == Unknown <==>
      forall i :: LastNamed(card.bands, u.name, world, i) ==> card.bands[i].units.None? || card.bands[i].units.value == ""
  {
    LastBandNamed(card.bands, u.name, world);
  }

  /** The last band of a name is found exactly if there is one. */
  lemma {:induction false} LastBandNamed(bands: seq<Band>, name: string, world: World)
    ensures BandNamed(bands, name, world).None? ==>
      forall j :: 0 <= j < |bands| ==> world.lower(bands[j].name) != world.lower(name)
    ensures BandNamed(bands, name, world).Some? ==>
      exists i :: LastNamed(bands, name, world, i) && bands[i] == BandNamed(bands, name, world).value
  {
    if bands != [] {
      var rest := bands[1..];
      assert forall j :: 1 <= j < |bands| ==> bands[j] == rest[j - 1];
      LastBandNamed(rest, name, world);
      if BandNamed(rest, name, world).Some? {
        var i :| LastNamed(rest, name, world, i) && rest[i] == BandNamed(rest, name, world).value;
        assert LastNamed(bands, name, world, i + 1);
      } else if BandNamed(bands, name, world).Some? {
        assert LastNamed(bands, name, world, 0);
      }
    }
  }

  lemma PolicyExactly(card: Card, req: Request)
    ensures PolicyAllows(card, req) <==> AcceptsPolicy(card, req)
  {
  }

  // ---------------------------------------------------------------------
  // Asking for less
  // ---------------------------------------------------------------------

  /** `less` asks for no more than `req`: a larger box, fewer bands and units,
      a coarser resolution or none, and perhaps no export. */
  predicate AsksLess(less: Request, req: Request) {
    && |req.bbox| == 4 && |less.bbox| == 4
    && less.bbox[0] <= req.bbox[0] && less.bbox[1] <= req.bbox[1]
    && req.bbox[2] <= less.bbox[2] && req.bbox[3] <= less.bbox[3]
    && less.crs == req.crs && less.start == req.start && less.end == req.end
    && (forall n :: n in less.bands ==> n in req.bands)
    && (forall u :: u in less.units ==> u in req.units)
    && (less.resolution.Some? ==> req.resolution.Some? && req.resolution.value <= less.resolution.value)
    && less.jurisdiction == req.jurisdiction && (less.exporting ==> req.exporting)
  }

  /** A valid report stays valid when less is asked. */
  lemma AskingLessStaysValid(card: Card, req: Request, less: Request, world: World)
    requires Valid(card, req, world) && AsksLess(less, req)
    ensures Valid(card, less, world)
  {
    hide UnitsStatus, StatusOf, All5, OnCrs, OnBox, OnTime, OnBands, OnResolution, Fine;
    var q, r := Combined(req), Combined(less);
    Parts(card, q, world);
    Parts(card, r, world);
    SameParts(card, q, r, world);
    LessBox(card, q, r, world);
    LessBands(card, q, r, world);
    LessResolution(card, q, r, world);
  }

  lemma LessBox(card: Card, q: Query, r: Query, world: World)
    requires q.bbox.Some? && r.bbox.Some? && |q.bbox.value| == 4 && |r.bbox.value| == 4
    requires r.bbox.value[0] <= q.bbox.value[0] && r.bbox.value[1] <= q.bbox.value[1]
    requires q.bbox.value[2] <= r.bbox.value[2] && q.bbox.value[3] <= r.bbox.value[3]
    requires q.crs == r.crs && Fine(OnBox(card, q, world), world)
    ensures Fine(OnBox(card, r, world), world)
  {
    hide HasWord, Reproject;
    var said := OnBox(card, q, world);
    if said.reasons != [] {
      assert said.reasons[0] in said.reasons;
    }
  }

  lemma LessBands(card: Card, q: Query, r: Query, world: World)
    requires (forall n :: n in r.bands ==> n in q.bands) && Fine(OnBands(card, q, world), world)
    ensures Fine(OnBands(card, r, world), world)
  {
    hide HasWord, Provides;
    var said := OnBands(card, q, world);
    if said.reasons != [] {
      assert said.reasons[0] in said.reasons;
    }
    if r.bands != [] {
      assert r.bands[0] in q.bands;
      assert forall n :: n in r.bands ==> Provides(card, n, world);
    }
  }

  lemma LessResolution(card: Card, q: Query, r: Query, world: World)
    requires r.resolution.Some? ==> q.resolution.Some? && q.resolution.value <= r.resolution.value
    requires Fine(OnResolution(card, q), world)
    ensures Fine(OnResolution(card, r), world)
  {
    var said := OnResolution(card, q);
    if said.reasons != [] {
      assert said.reasons[0] in said.reasons;
    }
  }
}
