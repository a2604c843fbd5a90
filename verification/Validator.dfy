// Contract satisfaction of a card: five checks that leave reasons and
// warnings, and a verdict read from the text of the reasons
// (src/geonexus/geocard/validator.py).
module Validator {
  import opened Wrappers
  import opened Text

  datatype Band = Band(name: string, units: Option<string>)

  datatype Compliance = Compliance(sovereignty: Option<string>, restrictions: set<string>, sensitivity: Option<string>)

  /** The part of a card that contracts look at; an absent section is one
      whose fields are absent. */
  datatype Card = Card(crs: Option<string>, bbox: Option<seq<real>>, resolution: Option<real>,
                       start: Option<string>, end: Option<string>, bands: seq<Band>, compliance: Option<Compliance>)

  datatype Query = Query(bbox: Option<seq<real>>, crs: Option<string>, start: Option<string>, end: Option<string>,
                         bands: seq<string>, resolution: Option<real>)

  /** What the checks call: comparing two reference systems, moving a point
      from one to the other, reading a time as an instant and whether it names
      its zone, lower-casing, and quoting a name inside a list. */
  datatype World = World(equivalent: (string, string) -> bool,
                         move: (real, real, string, string) -> Option<(real, real)>,
                         instant: string -> Option<int>,
                         aware: string -> bool,
                         lower: string -> string,
                         quote: string -> string)

  // ---------------------------------------------------------------------
  // Reasons, and the verdict in their wording
  // ---------------------------------------------------------------------

  datatype Reason =
    | CrsCompatible(card: string, request: string)
    | CrsIncompatible(card: string, request: string)
    | BadDimension
    | SpatialOverlap
    | SpatialMismatch
    | TemporalOverlap(cardStart: string, cardEnd: string, start: string, end: string)
    | TemporalMismatch
    | BandsMissing(missing: seq<string>)
    | BandsPresent(required: seq<string>)
    | FineEnough
    | TooCoarse

  datatype Warning = NoCrs | NoBox | Reprojected | NotReprojected | NoCoverage | TimeUnreadable | NoBands | NoResolution

  predicate HasWord(s: string) {
    Contains(s, "mismatch") || Contains(s, "incompatible") || Contains(s, "cannot compare")
  }

  /** A verdict word stands in the text of the reason. The wordings of a
      mismatch contain one themselves; the other wordings contain one only
      through the names in them. "Cannot compare bboxes of invalid dimension."
      starts with a capital and contains none. */
  predicate ReadsAsFailure(r: Reason, world: World) {
    match r
    case CrsIncompatible(_, _) => true
    case SpatialMismatch => true
    case TemporalMismatch => true
    case BandsMissing(_) => true
    case TooCoarse => true
    case CrsCompatible(a, b) => HasWord(a) || HasWord(b)
    case TemporalOverlap(a, b, c, d) => HasWord(a) || HasWord(b) || HasWord(c) || HasWord(d)
    case BandsPresent(names) => exists n :: n in names && HasWord(world.quote(n))
    case BadDimension => false
    case SpatialOverlap => false
    case FineEnough => false
  }

  /** Whether two boxes [w, s, e, n] intersect. */
  predicate Overlap(a: seq<real>, b: seq<real>)
    requires |a| >= 4 && |b| >= 4
  {
    !(a[2] < b[0] || b[2] < a[0] || a[3] < b[1] || b[3] < a[1])
  }

  function Min(a: real, b: real): real {
    if b < a then b else a
  }

  function Max(a: real, b: real): real {
    if b > a then b else a
  }

  /** The box around the four moved corners, if all of them can be moved. */
  function Reproject(box: seq<real>, from: string, to: string, world: World): (r: Option<seq<real>>)
    requires |box| >= 4
    ensures r.Some? ==> |r.value| == 4 && r.value[0] <= r.value[2] && r.value[1] <= r.value[3]
  {
    var a, b := world.move(box[0], box[1], from, to), world.move(box[2], box[1], from, to);
    var c, d := world.move(box[0], box[3], from, to), world.move(box[2], box[3], from, to);
    if a.None? || b.None? || c.None? || d.None? then None
    else
      Some([Min(Min(Min(a.value.0, b.value.0), c.value.0), d.value.0),
            Min(Min(Min(a.value.1, b.value.1), c.value.1), d.value.1),
            Max(Max(Max(a.value.0, b.value.0), c.value.0), d.value.0),
            Max(Max(Max(a.value.1, b.value.1), c.value.1), d.value.1)])
  }

  // ---------------------------------------------------------------------
  // What each of the five checks says
  // ---------------------------------------------------------------------

  datatype Said = Said(reasons: seq<Reason>, warnings: seq<Warning>) {
    function Then(more: Said): Said {
      Said(reasons + more.reasons, warnings + more.warnings)
    }
  }

  function Quiet(): Said {
    Said([], [])
  }

  function OnCrs(card: Card, q: Query, world: World): Said {
    if q.crs.None? then Quiet()
    else if card.crs.None? then Said([], [NoCrs])
    else if world.equivalent(card.crs.value, q.crs.value) then
      Said([CrsCompatible(card.crs.value, q.crs.value)], [])
    else Said([CrsIncompatible(card.crs.value, q.crs.value)], [])
  }

  /** Both reference systems are named, and they are not the same. */
  predicate NeedsReprojection(card: Card, q: Query, world: World) {
    && card.crs.Some? && card.crs.value != "" && q.crs.Some? && q.crs.value != ""
    && card.crs.value != q.crs.value && !world.equivalent(card.crs.value, q.crs.value)
  }

  function First4(box: seq<real>): seq<real> {
    if |box| >= 6 then box[..4] else box
  }

  function OnBox(card: Card, q: Query, world: World): Said {
    if q.bbox.None? then Quiet()
    else if card.bbox.None? then Said([], [NoBox])
    else if |q.bbox.value| < 4 || |card.bbox.value| < 4 then Said([BadDimension], [])
    else
      var box, wanted := First4(card.bbox.value), First4(q.bbox.value);
      if NeedsReprojection(card, q, world) then
        var moved := Reproject(box, card.crs.value, q.crs.value, world);
        if moved.Some? then Said([SpatialVerdict(moved.value, wanted)], [Reprojected])
        else Said([SpatialVerdict(box, wanted)], [NotReprojected])
      else Said([SpatialVerdict(box, wanted)], [])
  }

  function SpatialVerdict(box: seq<real>, wanted: seq<real>): Reason
    requires |box| >= 4 && |wanted| >= 4
  {
    if Overlap(box, wanted) then SpatialOverlap else SpatialMismatch
  }

  /** An absent or empty bound of the request is no bound. */
  function Given(bound: Option<string>): bool {
    bound.Some? && bound.value != ""
  }

  function OnTime(card: Card, q: Query, world: World): Said {
    if q.start.None? && q.end.None? then Quiet()
    else if !Given(card.start) || !Given(card.end) then Said([], [NoCoverage])
    else
      var from, to := world.instant(card.start.value), world.instant(card.end.value);
      if (Given(q.start) && world.instant(q.start.value).None?) || (Given(q.end) && world.instant(q.end.value).None?)
         || from.None? || to.None? then Said([], [TimeUnreadable])
      else if (Given(q.end) ==> from.value <= world.instant(q.end.value).value)
           && (Given(q.start) ==> world.instant(q.start.value).value <= to.value) then
        Said([TemporalOverlap(card.start.value, card.end.value,
                              if Given(q.start) then q.start.value else "*", if Given(q.end) then q.end.value else "*")], [])
      else Said([TemporalMismatch], [])
  }

  /** The card has the band, up to letter case. */
  predicate Provides(card: Card, name: string, world: World) {
    exists b :: b in card.bands && world.lower(b.name) == world.lower(name)
  }

  function Missing(card: Card, names: seq<string>, world: World): (r: seq<string>)
    ensures forall n :: n in r <==> n in names && !Provides(card, n, world)
    ensures r == [] <==> forall n :: n in names ==> Provides(card, n, world)
  {
    if names == [] then []
    else
      assert names == [names[0]] + names[1..];
      (if Provides(card, names[0], world) then [] else [names[0]]) + Missing(card, names[1..], world)
  }

  function OnBands(card: Card, q: Query, world: World): Said {
    if q.bands == [] then Quiet()
    else if card.bands == [] then Said([], [NoBands])
    else if Missing(card, q.bands, world) != [] then Said([BandsMissing(Missing(card, q.bands, world))], [])
    else Said([BandsPresent(q.bands)], [])
  }

  const TOLERANCE := 0.000000001

  function OnResolution(card: Card, q: Query): Said {
    if q.resolution.None? then Quiet()
    else if card.resolution.None? then Said([], [NoResolution])
    else if card.resolution.value <= q.resolution.value + TOLERANCE then Said([FineEnough], [])
    else Said([TooCoarse], [])
  }

  function All5(card: Card, q: Query, world: World): Said {
    OnCrs(card, q, world).Then(OnBox(card, q, world)).Then(OnTime(card, q, world))
    .Then(OnBands(card, q, world)).Then(OnResolution(card, q))
  }

  /** No reason reads as a failure. */
  ghost predicate Satisfied(said: Said, world: World) {
    forall r :: r in said.reasons ==> !ReadsAsFailure(r, world)
  }

  // ---------------------------------------------------------------------
  // The verdict in terms of the card and the query alone
  // ---------------------------------------------------------------------

  predicate CrsHolds(card: Card, q: Query, world: World) {
    q.crs.Some? && card.crs.Some? ==>
      world.equivalent(card.crs.value, q.crs.value) && !HasWord(card.crs.value) && !HasWord(q.crs.value)
  }

  /** The corners of the card's box as they are moved to the reference system of
      the query, if both are named, they differ, and every corner can be moved. */
  function MovedCorners(card: Card, q: Query, world: World): seq<(real, real)>
    requires card.bbox.Some? && |card.bbox.value| >= 4
  {
    if card.crs.Some? && card.crs.value != "" && q.crs.Some? && q.crs.value != ""
       && card.crs.value != q.crs.value && !world.equivalent(card.crs.value, q.crs.value) then
      var west, south, east, north := card.bbox.value[0], card.bbox.value[1], card.bbox.value[2], card.bbox.value[3];
      var a := world.move(west, south, card.crs.value, q.crs.value);
      var b := world.move(east, south, card.crs.value, q.crs.value);
      var c := world.move(west, north, card.crs.value, q.crs.value);
      var d := world.move(east, north, card.crs.value, q.crs.value);
      if a.Some? && b.Some? && c.Some? && d.Some? then [a.value, b.value, c.value, d.value] else []
    else []
  }

  /** Boxes of at least four values meet; a moved one does if no side of the wanted
      box leaves all its corners outside. */
  predicate BoxHolds(card: Card, q: Query, world: World) {
    q.bbox.Some? && |q.bbox.value| >= 4 && card.bbox.Some? && |card.bbox.value| >= 4 ==>
      var moved, box, wanted := MovedCorners(card, q, world), card.bbox.value, q.bbox.value;
      if moved != [] then
        && (exists p :: p in moved && p.0 <= wanted[2]) && (exists p :: p in moved && wanted[0] <= p.0)
        && (exists p :: p in moved && p.1 <= wanted[3]) && (exists p :: p in moved && wanted[1] <= p.1)
      else
        && box[0] <= wanted[2] && wanted[0] <= box[2] && box[1] <= wanted[3] && wanted[1] <= box[3]
  }

  /** Where all times can be read, the windows meet. */
  predicate TimeHolds(card: Card, q: Query, world: World) {
    && (q.start.Some? || q.end.Some?)
    && card.start.Some? && card.start.value != "" && card.end.Some? && card.end.value != ""
    && world.instant(card.start.value).Some? && world.instant(card.end.value).Some?
    && (q.start.Some? && q.start.value != "" ==> world.instant(q.start.value).Some?)
    && (q.end.Some? && q.end.value != "" ==> world.instant(q.end.value).Some?)
    ==>
    && (q.end.Some? && q.end.value != "" ==>
          world.instant(card.start.value).value <= world.instant(q.end.value).value && !HasWord(q.end.value))
    && (q.start.Some? && q.start.value != "" ==>
          world.instant(q.start.value).value <= world.instant(card.end.value).value && !HasWord(q.start.value))
    && !HasWord(card.start.value) && !HasWord(card.end.value)
  }

  ghost predicate BandsHold(card: Card, q: Query, world: World) {
    card.bands != [] ==>
      forall n :: n in q.bands ==>
        !HasWord(world.quote(n)) && exists b :: b in card.bands && world.lower(b.name) == world.lower(n)
  }

  predicate ResolutionHolds(card: Card, q: Query) {
    q.resolution.Some? && card.resolution.Some? ==>
      card.resolution.value - q.resolution.value <= 1.0 / 1000000000.0
  }

  lemma SatisfiedThen(a: Said, b: Said, world: World)
    ensures Satisfied(a.Then(b), world) <==> Satisfied(a, world) && Satisfied(b, world)
  {
    hide ReadsAsFailure;
    assert forall r :: r in a.Then(b).reasons <==> r in a.reasons || r in b.reasons;
  }

  /** A check is satisfied exactly if each part holds, where a part about something
      that is not asked for or not declared holds as a matter of course. */
  lemma SatisfiedExactly(card: Card, q: Query, world: World)
    ensures Satisfied(All5(card, q, world), world) <==>
      && CrsHolds(card, q, world) && BoxHolds(card, q, world) && TimeHolds(card, q, world)
      && BandsHold(card, q, world) && ResolutionHolds(card, q)
  {
    hide Satisfied, OnCrs, OnBox, OnTime, OnBands, OnResolution, CrsHolds, BoxHolds, TimeHolds, BandsHold, ResolutionHolds;
    var a, b, c := OnCrs(card, q, world), OnBox(card, q, world), OnTime(card, q, world);
    var d, e := OnBands(card, q, world), OnResolution(card, q);
    SatisfiedThen(a, b, world);
    SatisfiedThen(a.Then(b), c, world);
    SatisfiedThen(a.Then(b).Then(c), d, world);
    SatisfiedThen(a.Then(b).Then(c).Then(d), e, world);
    CrsSatisfied(card, q, world);
    BoxSatisfied(card, q, world);
    TimeSatisfied(card, q, world);
    BandsSatisfied(card, q, world);
    ResolutionSatisfied(card, q, world);
  }

  /** At most one reason decides a part. */
  lemma OneReason(said: Said, world: World)
    requires |said.reasons| <= 1
    ensures Satisfied(said, world) <==> (said.reasons != [] ==> !ReadsAsFailure(said.reasons[0], world))
  {
    hide ReadsAsFailure;
    if said.reasons != [] {
      assert said.reasons[0] in said.reasons;
    }
  }

  lemma CrsSatisfied(card: Card, q: Query, world: World)
    ensures Satisfied(OnCrs(card, q, world), world) <==> CrsHolds(card, q, world)
  {
    hide HasWord, Satisfied;
    OneReason(OnCrs(card, q, world), world);
  }

  lemma BoxSatisfied(card: Card, q: Query, world: World)
    ensures Satisfied(OnBox(card, q, world), world) <==> BoxHolds(card, q, world)
  {
    hide HasWord, Satisfied, Reproject, Overlap;
    OneReason(OnBox(card, q, world), world);
    if q.bbox.Some? && |q.bbox.value| >= 4 && card.bbox.Some? && |card.bbox.value| >= 4 {
      var box, wanted := First4(card.bbox.value), First4(q.bbox.value);
      SidesKept(card.bbox.value);
      SidesKept(q.bbox.value);
      OverlapSides(box, wanted);
      if NeedsReprojection(card, q, world) {
        MovedReaches(card, q, world, box, wanted);
      }
    }
  }

  lemma SidesKept(box: seq<real>)
    requires |box| >= 4
    ensures var b := First4(box); |b| >= 4 && b[0] == box[0] && b[1] == box[1] && b[2] == box[2] && b[3] == box[3]
  {
  }

  lemma OverlapSides(a: seq<real>, b: seq<real>)
    requires |a| >= 4 && |b| >= 4
    ensures Overlap(a, b) <==> a[0] <= b[2] && b[0] <= a[2] && a[1] <= b[3] && b[1] <= a[3]
  {
  }

  lemma MovedReaches(card: Card, q: Query, world: World, box: seq<real>, wanted: seq<real>)
    requires card.bbox.Some? && |card.bbox.value| >= 4 && |box| >= 4 && |wanted| >= 4 && NeedsReprojection(card, q, world)
    requires box[0] == card.bbox.value[0] && box[1] == card.bbox.value[1]
    requires box[2] == card.bbox.value[2] && box[3] == card.bbox.value[3]
    ensures var moved, hull := MovedCorners(card, q, world), Reproject(box, card.crs.value, q.crs.value, world);
      && (moved == [] <==> hull.None?)
      && (hull.Some? ==>
            (Overlap(hull.value, wanted) <==>
               && (exists p :: p in moved && p.0 <= wanted[2]) && (exists p :: p in moved && wanted[0] <= p.0)
               && (exists p :: p in moved && p.1 <= wanted[3]) && (exists p :: p in moved && wanted[1] <= p.1)))
  {
    var moved, hull := MovedCorners(card, q, world), Reproject(box, card.crs.value, q.crs.value, world);
    if hull.Some? {
      assert forall p :: p in moved <==> p == moved[0] || p == moved[1] || p == moved[2] || p == moved[3];
      OverlapSides(hull.value, wanted);
    }
  }

  lemma TimeSatisfied(card: Card, q: Query, world: World)
    ensures Satisfied(OnTime(card, q, world), world) <==> TimeHolds(card, q, world)
  {
    NoWordInStar();
    hide HasWord, Satisfied;
    OneReason(OnTime(card, q, world), world);
  }

  lemma NoWordInStar()
    ensures !HasWord("*")
  {
  }

  lemma BandsSatisfied(card: Card, q: Query, world: World)
    ensures Satisfied(OnBands(card, q, world), world) <==> BandsHold(card, q, world)
  {
    hide HasWord, Satisfied;
    OneReason(OnBands(card, q, world), world);
    if q.bands != [] {
      assert q.bands[0] in q.bands;
    }
  }

  lemma ResolutionSatisfied(card: Card, q: Query, world: World)
    ensures Satisfied(OnResolution(card, q), world) <==> ResolutionHolds(card, q)
  {
    hide Satisfied;
    OneReason(OnResolution(card, q), world);
  }

  // ---------------------------------------------------------------------
  // The check itself
  // ---------------------------------------------------------------------

  datatype Outcome = Outcome(satisfied: bool, reasons: seq<Reason>, warnings: seq<Warning>)

  method Check(card: Card, q: Query, world: World) returns (r: Outcome)
    ensures Said(r.reasons, r.warnings) == All5(card, q, world)
    ensures r.satisfied <==> Satisfied(All5(card, q, world), world)
    ensures r.satisfied <==>
      && CrsHolds(card, q, world) && BoxHolds(card, q, world) && TimeHolds(card, q, world)
      && BandsHold(card, q, world) && ResolutionHolds(card, q)
  {
    SatisfiedExactly(card, q, world);
    hide CrsHolds, BoxHolds, TimeHolds, BandsHold, ResolutionHolds;
    hide ReadsAsFailure, OnCrs, OnBox, OnTime, OnBands, OnResolution;
    var reasons: seq<Reason>, warnings: seq<Warning> := CheckCrs(card, q, world);
    var moreReasons, moreWarnings := CheckBox(card, q, world);
    reasons, warnings := reasons + moreReasons, warnings + moreWarnings;
    moreReasons, moreWarnings := CheckTime(card, q, world);
    reasons, warnings := reasons + moreReasons, warnings + moreWarnings;
    moreReasons, moreWarnings := CheckBands(card, q, world);
    reasons, warnings := reasons + moreReasons, warnings + moreWarnings;
    moreReasons, moreWarnings := CheckResolution(card, q);
    reasons, warnings := reasons + moreReasons, warnings + moreWarnings;
    r := Outcome(forall x :: x in reasons ==> !ReadsAsFailure(x, world), reasons, warnings);
  }

  method CheckCrs(card: Card, q: Query, world: World) returns (reasons: seq<Reason>, warnings: seq<Warning>)
    ensures Said(reasons, warnings) == OnCrs(card, q, world)
  {
    reasons, warnings := [], [];
    if q.crs.Some? {
      if card.crs.None? {
        warnings := warnings + [NoCrs];
      } else if world.equivalent(card.crs.value, q.crs.value) {
        reasons := reasons + [CrsCompatible(card.crs.value, q.crs.value)];
      } else {
        reasons := reasons + [CrsIncompatible(card.crs.value, q.crs.value)];
      }
    }
  }

  method CheckResolution(card: Card, q: Query) returns (reasons: seq<Reason>, warnings: seq<Warning>)
    ensures Said(reasons, warnings) == OnResolution(card, q)
  {
    reasons, warnings := [], [];
    if q.resolution.Some? {
      if card.resolution.None? {
        warnings := warnings + [NoResolution];
      } else if card.resolution.value <= q.resolution.value + TOLERANCE {
        reasons := reasons + [FineEnough];
      } else {
        reasons := reasons + [TooCoarse];
      }
    }
  }

  method CheckBox(card: Card, q: Query, world: World) returns (reasons: seq<Reason>, warnings: seq<Warning>)
    ensures Said(reasons, warnings) == OnBox(card, q, world)
  {
    hide Overlap, Reproject;
    reasons, warnings := [], [];
    if q.bbox.Some? {
      if card.bbox.None? {
        warnings := warnings + [NoBox];
      } else if |q.bbox.value| < 4 || |card.bbox.value| < 4 {
        reasons := reasons + [BadDimension];
      } else {
        var cardBox, wanted := card.bbox.value, q.bbox.value;
        if |cardBox| >= 6 {
          cardBox := cardBox[..4];
        }
        if |wanted| >= 6 {
          wanted := wanted[..4];
        }
        var overlapBox := cardBox;
        if NeedsReprojection(card, q, world) {
          var moved := Reproject(cardBox, card.crs.value, q.crs.value, world);
          if moved.Some? {
            overlapBox := moved.value;
            warnings := warnings + [Reprojected];
          } else {
            warnings := warnings + [NotReprojected];
          }
        }
        if Overlap(overlapBox, wanted) {
          reasons := reasons + [SpatialOverlap];
        } else {
          reasons := reasons + [SpatialMismatch];
        }
      }
    }
  }

  method CheckTime(card: Card, q: Query, world: World) returns (reasons: seq<Reason>, warnings: seq<Warning>)
    ensures Said(reasons, warnings) == OnTime(card, q, world)
  {
    reasons, warnings := [], [];
    if q.start.Some? || q.end.Some? {
      if !Given(card.start) || !Given(card.end) {
        warnings := warnings + [NoCoverage];
      } else {
        var from, to := world.instant(card.start.value), world.instant(card.end.value);
        var reqFrom := if Given(q.start) then world.instant(q.start.value) else None;
        var reqTo := if Given(q.end) then world.instant(q.end.value) else None;
        if (Given(q.start) && reqFrom.None?) || (Given(q.end) && reqTo.None?) || from.None? || to.None? {
          warnings := warnings + [TimeUnreadable];
        } else if (reqTo.Some? ==> from.value <= reqTo.value) && (reqFrom.Some? ==> reqFrom.value <= to.value) {
          reasons := reasons + [TemporalOverlap(card.start.value, card.end.value,
                                                if Given(q.start) then q.start.value else "*",
                                                if Given(q.end) then q.end.value else "*")];
        } else {
          reasons := reasons + [TemporalMismatch];
        }
      }
    }
  }

  method CheckBands(card: Card, q: Query, world: World) returns (reasons: seq<Reason>, warnings: seq<Warning>)
    ensures Said(reasons, warnings) == OnBands(card, q, world)
  {
    reasons, warnings := [], [];
    if q.bands != [] {
      if card.bands == [] {
        warnings := warnings + [NoBands];
      } else {
        var missing := Missing(card, q.bands, world);
        if missing != [] {
          reasons := reasons + [BandsMissing(missing)];
        } else {
          reasons := reasons + [BandsPresent(q.bands)];
        }
      }
    }
  }
}
