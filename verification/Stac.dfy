// Publishing a card as a STAC item and reading the item back
// (src/geonexus/adapters/stac_write.py, src/geonexus/adapters/stac.py).
module Stac {
  import opened Wrappers
  import opened Filters
  import opened StacText
  import Text

  // ---------------------------------------------------------------------
  // Cards and items
  // ---------------------------------------------------------------------

  datatype Spatial = Spatial(bbox: Option<seq<real>>, crs: Option<string>, resolution: Option<real>, geometry: Option<string>)

  datatype Temporal = Temporal(start: Option<string>, end: Option<string>, interval: Option<string>)

  datatype Band = Band(name: string, dtype: Option<string>, units: Option<string>, description: Option<string>)

  datatype Access = Access(protocol: Option<string>, endpoint: Option<string>, auth: Option<string>, format: Option<string>)

  datatype Provenance = Provenance(provider: string, source: string, lineage: string)

  datatype License = Plain(text: string) | Structured(name: Option<string>, url: Option<string>)

  /** A card; `others` stands for every section that STAC does not carry. */
  datatype Card = Card(version: string, id: string, kind: string, name: string, description: string, tags: seq<string>,
                       spatial: Option<Spatial>, temporal: Option<Temporal>, bands: seq<Band>, capabilities: seq<string>,
                       access: Option<Access>, provenance: Option<Provenance>, license: Option<License>, others: Option<string>)

  datatype Properties = Properties(datetime: Option<string>, start: Option<string>, end: Option<string>,
                                   title: Option<string>, description: Option<string>, license: Option<string>,
                                   epsg: Option<nat>, gsd: Option<real>, provider: Option<string>)

  /** The geometry of an item: the one the card declares, or the corners of a box
      in turn, back to the first. */
  datatype Geometry = Declared(document: string) | Polygon(ring: seq<(real, real)>)

  datatype Asset = Asset(key: string, href: string, kind: string, bands: seq<Band>)

  datatype Link = Link(rel: string, href: string)

  /** An item; `assets` is a dictionary in its order. */
  datatype Item = Item(id: string, properties: Properties, assets: seq<Asset>, collection: Option<string>,
                       bbox: Option<seq<real>>, geometry: Option<Geometry>, links: seq<Link>)

  /** Parsing a geometry, where nothing stands for a text that cannot be read or
      says null, and the empty text for an empty document; and joining a sorted
      set of media types with commas. */
  datatype World = World(parse: string -> Option<string>, join: set<string> -> string)

  /** Joining one type gives that type. */
  ghost predicate JoinsOne(world: World) {
    forall x: string :: world.join({x}) == x
  }

  datatype Failure = IndexError

  predicate Given(s: Option<string>) {
    s.Some? && s.value != ""
  }

  function Truthy(s: Option<string>): Option<string> {
    if Given(s) then s else None
  }

  function Or(s: Option<string>, otherwise: string): string {
    if Given(s) then s.value else otherwise
  }

  // ---------------------------------------------------------------------
  // Bands and the dictionary of assets
  // ---------------------------------------------------------------------

  function Clean(b: Band): Band {
    Band(b.name, Truthy(b.dtype), Truthy(b.units), None)
  }

  /** Assigning under the band's name: the first place, the last value. */
  function Put(bands: seq<Band>, b: Band): seq<Band> {
    if bands == [] then [b]
    else if bands[0].name == b.name then [b] + bands[1..]
    else [bands[0]] + Put(bands[1..], b)
  }

  /** The bands as a dictionary by name holds them. */
  function Merged(bands: seq<Band>): seq<Band> {
    if bands == [] then []
    else Put(Merged(bands[..|bands| - 1]), Clean(bands[|bands| - 1]))
  }

  ghost predicate DistinctNames(bands: seq<Band>) {
    forall i, j :: 0 <= i < j < |bands| ==> bands[i].name != bands[j].name
  }

  ghost predicate AllClean(bands: seq<Band>) {
    forall b :: b in bands ==> Clean(b) == b
  }

  predicate HasName(b: Band) {
    b.name != ""
  }

  /** The bands that survive the trip. */
  function NormalBands(bands: seq<Band>): seq<Band> {
    Filter(Merged(bands), HasName)
  }

  lemma {:induction false} PutMember(bands: seq<Band>, b: Band)
    requires DistinctNames(bands)
    ensures forall c :: c in Put(bands, b) <==> c == b || (c in bands && c.name != b.name)
  {
    if bands != [] {
      var rest := bands[1..];
      assert bands == [bands[0]] + rest;
      assert forall j :: 0 <= j < |rest| ==> rest[j] == bands[j + 1];
      if bands[0].name != b.name {
        PutMember(rest, b);
      }
    }
  }

  lemma {:induction false} PutAppends(bands: seq<Band>, b: Band)
    requires forall c :: c in bands ==> c.name != b.name
    ensures Put(bands, b) == bands + [b]
  {
    if bands != [] {
      assert bands[0] in bands;
      assert forall c :: c in bands[1..] ==> c in bands;
      PutAppends(bands[1..], b);
      assert bands == [bands[0]] + bands[1..];
    }
  }

  lemma DistinctCons(x: Band, rest: seq<Band>)
    requires DistinctNames(rest) && forall c :: c in rest ==> c.name != x.name
    ensures DistinctNames([x] + rest)
  {
    forall j | 0 <= j < |rest| ensures rest[j].name != x.name {
      assert rest[j] in rest;
    }
  }

  lemma {:induction false} PutDistinct(bands: seq<Band>, b: Band)
    requires DistinctNames(bands)
    ensures DistinctNames(Put(bands, b))
  {
    if bands != [] {
      var x, rest := bands[0], bands[1..];
      assert forall j :: 0 <= j < |rest| ==> rest[j] == bands[j + 1];
      if x.name == b.name {
        DistinctCons(b, rest);
      } else {
        PutDistinct(rest, b);
        PutMember(rest, b);
        DistinctCons(x, Put(rest, b));
      }
    }
  }

  lemma {:induction false} MergedTidy(bands: seq<Band>)
    ensures DistinctNames(Merged(bands)) && AllClean(Merged(bands))
    decreases |bands|
  {
    hide Put;
    if bands != [] {
      hide DistinctNames;
      var k := |bands| - 1;
      MergedTidy(bands[..k]);
      PutMember(Merged(bands[..k]), Clean(bands[k]));
      PutDistinct(Merged(bands[..k]), Clean(bands[k]));
    }
  }

  lemma TidyPrefix(bands: seq<Band>, k: nat)
    requires k + 1 == |bands| && DistinctNames(bands) && AllClean(bands)
    ensures DistinctNames(bands[..k]) && AllClean(bands[..k]) && Clean(bands[k]) == bands[k]
    ensures forall c :: c in bands[..k] ==> c.name != bands[k].name
  {
    var rest := bands[..k];
    assert bands[k] in bands;
    forall c | c in rest ensures c.name != bands[k].name && Clean(c) == c {
      var j :| 0 <= j < k && rest[j] == c;
      assert bands[j] == c && bands[j] in bands;
    }
  }

  lemma {:induction false} MergedFixed(bands: seq<Band>)
    requires DistinctNames(bands) && AllClean(bands)
    ensures Merged(bands) == bands
    decreases |bands|
  {
    hide Put, DistinctNames, AllClean, Clean;
    if bands != [] {
      var k := |bands| - 1;
      TidyPrefix(bands, k);
      MergedFixed(bands[..k]);
      PutAppends(bands[..k], bands[k]);
      assert bands == bands[..k] + [bands[k]];
    }
  }

  lemma {:induction false} FilterTidy(bands: seq<Band>)
    requires DistinctNames(bands) && AllClean(bands)
    ensures DistinctNames(Filter(bands, HasName)) && AllClean(Filter(bands, HasName))
    ensures forall b :: b in Filter(bands, HasName) <==> b in bands && HasName(b)
  {
    FilterMember(bands, HasName);
    if bands != [] {
      var rest := bands[1..];
      assert bands == [bands[0]] + rest;
      assert forall j :: 0 <= j < |rest| ==> rest[j] == bands[j + 1];
      FilterTidy(rest);
      FilterHead(bands, HasName);
      var f := Filter(rest, HasName);
      forall j | 0 <= j < |f| ensures f[j].name != bands[0].name {
        assert f[j] in f;
      }
    }
  }

  /** Exactly the lists of distinct, named, clean bands stay as they are. */
  lemma BandsKeptExactly(bands: seq<Band>)
    ensures NormalBands(bands) == bands <==>
      DistinctNames(bands) && AllClean(bands) && forall b :: b in bands ==> HasName(b)
  {
    hide Merged, Filter;
    MergedTidy(bands);
    FilterTidy(Merged(bands));
    if DistinctNames(bands) && AllClean(bands) && forall b :: b in bands ==> HasName(b) {
      MergedFixed(bands);
      FilterAll(bands, HasName);
    }
  }

  lemma NormalBandsTwice(bands: seq<Band>)
    ensures NormalBands(NormalBands(bands)) == NormalBands(bands)
  {
    hide Merged, Filter;
    MergedTidy(bands);
    FilterTidy(Merged(bands));
    BandsKeptExactly(NormalBands(bands));
  }

  // ---------------------------------------------------------------------
  // Export
  // ---------------------------------------------------------------------

  function Endpoint(card: Card): Option<string> {
    if card.access.Some? then card.access.value.endpoint else None
  }

  function MediaType(card: Card): Option<string> {
    if card.access.Some? then card.access.value.format else None
  }

  /** The type given to every asset of the card. */
  function AssetKind(card: Card): string {
    Or(MediaType(card), if card.bands == [] then "application/geo+json" else "application/octet-stream")
  }

  function ToAsset(endpoint: Option<string>, kind: string, id: string): Band -> Asset {
    (b: Band) => Asset(b.name, Or(endpoint, id + "/" + b.name), kind, [b])
  }

  function AssetsOf(card: Card, id: string): seq<Asset> {
    if card.bands == [] then [Asset("geocard", Or(Endpoint(card), id + ".json"), AssetKind(card), [])]
    else Map(Merged(card.bands), ToAsset(Endpoint(card), AssetKind(card), id))
  }

  function Box(card: Card): Option<seq<real>> {
    if card.spatial.Some? && card.spatial.value.bbox.Some? && card.spatial.value.bbox.value != []
    then card.spatial.value.bbox else None
  }

  /** The geometry the card itself declares, if it can be read. */
  function OwnGeometry(card: Card, world: World): Option<string> {
    if card.spatial.Some? && Given(card.spatial.value.geometry) then world.parse(card.spatial.value.geometry.value)
    else None
  }

  /** The writer draws a polygon around a box of fewer than four values, and
      raises. */
  predicate ExportRaises(card: Card, world: World) {
    Box(card).Some? && |Box(card).value| < 4 && OwnGeometry(card, world).None?
  }

  /** `_bbox_polygon`. */
  function Corners(box: seq<real>): seq<(real, real)>
    requires |box| >= 4
  {
    [(box[0], box[1]), (box[2], box[1]), (box[2], box[3]), (box[0], box[3]), (box[0], box[1])]
  }

  /** An empty document takes the place of the polygon and is not written. */
  function GeometryOf(card: Card, world: World): Option<Geometry>
    requires !ExportRaises(card, world)
  {
    if OwnGeometry(card, world).Some? then
      if Given(OwnGeometry(card, world)) then Some(Declared(OwnGeometry(card, world).value)) else None
    else if Box(card).Some? then Some(Polygon(Corners(Box(card).value))) else None
  }

  function LicenseText(card: Card): Option<string> {
    match card.license
    case None => None
    case Some(Plain(text)) => Some(text)
    case Some(Structured(name, _)) => name
  }

  function EpsgOf(card: Card): Option<nat> {
    var code := if card.spatial.Some? then Epsg(card.spatial.value.crs) else None;
    if code.Some? && code.value != 0 then code else None
  }

  function GsdOf(card: Card): Option<real> {
    if card.spatial.Some? && card.spatial.value.resolution.Some? && card.spatial.value.resolution.value != 0.0
    then card.spatial.value.resolution else None
  }

  function StartOf(card: Card): Option<string> {
    if card.temporal.Some? then Truthy(card.temporal.value.start) else None
  }

  function EndOf(card: Card): Option<string> {
    if card.temporal.Some? then Truthy(card.temporal.value.end) else None
  }

  function PropertiesOf(card: Card): Properties {
    Properties(StartOf(card), StartOf(card), EndOf(card), Some(card.name), Some(card.description),
               LicenseText(card), EpsgOf(card), GsdOf(card), None)
  }

  function LinksOf(card: Card, collection: Option<string>): seq<Link> {
    (if Given(Endpoint(card)) then [Link("self", Endpoint(card).value)] else [])
    + if Given(collection) then [Link("collection", "collections/" + collection.value)] else []
  }

  function Exported(card: Card, collection: Option<string>, world: World): Result<Item, Failure> {
    if ExportRaises(card, world) then Err(IndexError)
    else
      var id := Sanitize(card.id);
      Ok(Item(id, PropertiesOf(card), AssetsOf(card, id), Truthy(collection), Box(card), GeometryOf(card, world),
              LinksOf(card, collection)))
  }

  // ---------------------------------------------------------------------
  // Import
  // ---------------------------------------------------------------------

  function BandsOf(assets: seq<Asset>): seq<Band> {
    if assets == [] then [] else Filter(assets[0].bands, HasName) + BandsOf(assets[1..])
  }

  function KindsOf(assets: seq<Asset>): set<string> {
    set a | a in assets && a.kind != "" :: a.kind
  }

  function SpatialOf(item: Item): Option<Spatial> {
    var bbox := if item.bbox.Some? && item.bbox.value != [] then
                  Some(if |item.bbox.value| > 4 then item.bbox.value[..4] else item.bbox.value) else None;
    var crs := if item.properties.epsg.Some? then Some(Canonical(item.properties.epsg.value)) else None;
    if bbox.None? && crs.None? && item.properties.gsd.None? then None
    else Some(Spatial(bbox, crs, item.properties.gsd, None))
  }

  function TemporalOf(item: Item): Option<Temporal> {
    var p := item.properties;
    var start, end := if p.start.Some? then p.start else p.datetime, if p.end.Some? then p.end else p.datetime;
    if Given(start) || Given(end) then Some(Temporal(Truthy(start), Truthy(end), None)) else None
  }

  function DefaultDescription(id: string, collection: Option<string>): string {
    "STAC item '" + id + "'" + if Given(collection) then " from collection '" + collection.value + "'" else ""
  }

  function TagsFor(collection: Option<string>): seq<string> {
    ["stac"] + if Given(collection) then ["stac-collection:" + collection.value] else []
  }

  function FormatOf(kinds: set<string>, world: World): string {
    var joined := if kinds == {} then "" else world.join(kinds);
    if joined == "" then "unknown" else joined
  }

  function ProvenanceFor(id: string, provider: Option<string>, collection: Option<string>): Provenance {
    Provenance(Or(provider, Or(collection, "unknown")), id,
               "Imported from STAC (collection=" + (if collection.Some? then collection.value else "None") + ")")
  }

  function Imported(item: Item, world: World): Card {
    var p := item.properties;
    Card("0.1", item.id, "data", Or(p.title, item.id), Or(p.description, DefaultDescription(item.id, item.collection)),
         TagsFor(item.collection), SpatialOf(item), TemporalOf(item), BandsOf(item.assets), [],
         Some(Access(Some("stac"), Some(Or(if item.links != [] then Some(item.links[0].href) else None, item.id)), None,
                     Some(FormatOf(KindsOf(item.assets), world)))),
         Some(ProvenanceFor(item.id, p.provider, item.collection)),
         if Given(p.license) then Some(Structured(p.license, None)) else None, None)
  }

  // ---------------------------------------------------------------------
  // The trip
  // ---------------------------------------------------------------------

  /** Export and import. */
  function Trip(card: Card, collection: Option<string>, world: World): Result<Card, Failure> {
    var item := Exported(card, collection, world);
    if item.Ok? then Ok(Imported(item.value, world)) else Err(item.error)
  }

  function NormalSpatial(card: Card): Option<Spatial> {
    var bbox := if Box(card).Some? then Some(if |Box(card).value| > 4 then Box(card).value[..4] else Box(card).value) else None;
    var crs := if EpsgOf(card).Some? then Some(Canonical(EpsgOf(card).value)) else None;
    if bbox.None? && crs.None? && GsdOf(card).None? then None
    else Some(Spatial(bbox, crs, GsdOf(card), None))
  }

  /** A missing end becomes the start. */
  function NormalTemporal(card: Card): Option<Temporal> {
    var start := StartOf(card);
    var end := if EndOf(card).Some? then EndOf(card) else start;
    if start.Some? || end.Some? then Some(Temporal(start, end, None)) else None
  }

  /** What comes back from the trip, field by field. */
  function Normal(card: Card, collection: Option<string>): Card {
    var id := Sanitize(card.id);
    Card("0.1", id, "data", Or(Some(card.name), id), Or(Some(card.description), DefaultDescription(id, collection)),
         TagsFor(collection), NormalSpatial(card), NormalTemporal(card), NormalBands(card.bands), [],
         Some(Access(Some("stac"),
                     Some(Or(Endpoint(card), if Given(collection) then "collections/" + collection.value else id)),
                     None, Some(AssetKind(card)))),
         Some(ProvenanceFor(id, None, Truthy(collection))),
         if Given(LicenseText(card)) then Some(Structured(LicenseText(card), None)) else None, None)
  }

  lemma {:induction false} BandsBack(bands: seq<Band>, endpoint: Option<string>, kind: string, id: string)
    ensures BandsOf(Map(bands, ToAsset(endpoint, kind, id))) == Filter(bands, HasName)
  {
    if bands != [] {
      BandsBack(bands[1..], endpoint, kind, id);
      var b := bands[0];
      assert Map(bands, ToAsset(endpoint, kind, id))[1..] == Map(bands[1..], ToAsset(endpoint, kind, id));
      assert Filter([b], HasName) == if HasName(b) then [b] else [] by { assert [b][1..] == []; }
    }
  }

  lemma MergedNonEmpty(bands: seq<Band>)
    requires bands != []
    ensures Merged(bands) != []
  {
  }

  lemma KindsBack(card: Card, id: string, world: World)
    requires JoinsOne(world)
    ensures FormatOf(KindsOf(AssetsOf(card, id)), world) == AssetKind(card)
  {
    hide Merged;
    var assets := AssetsOf(card, id);
    if card.bands != [] {
      MergedNonEmpty(card.bands);
    }
    assert assets[0] in assets;
    assert KindsOf(assets) == {AssetKind(card)};
  }

  lemma BandsSurvive(card: Card, id: string)
    ensures BandsOf(AssetsOf(card, id)) == NormalBands(card.bands)
  {
    if card.bands == [] {
      assert NormalBands([]) == [];
    } else {
      hide Merged, Filter, Map;
      BandsBack(Merged(card.bands), Endpoint(card), AssetKind(card), id);
    }
  }

  lemma PlaceAndTime(card: Card, item: Item)
    requires item.bbox == Box(card) && item.properties == PropertiesOf(card)
    ensures SpatialOf(item) == NormalSpatial(card) && TemporalOf(item) == NormalTemporal(card)
  {
    hide Epsg, Canonical;
  }

  lemma LinkBack(card: Card, collection: Option<string>, id: string)
    ensures var links := LinksOf(card, collection);
      Or(if links != [] then Some(links[0].href) else None, id)
      == Or(Endpoint(card), if Given(collection) then "collections/" + collection.value else id)
  {
    var links := LinksOf(card, collection);
    if Given(Endpoint(card)) {
      assert links[0] == Link("self", Endpoint(card).value);
    } else if Given(collection) {
      assert links[0].href == "collections/" + collection.value;
      assert |links[0].href| > 0;
    }
  }

  /** A card that can be exported comes back in its normal form. */
  lemma TripIsNormal(card: Card, collection: Option<string>, world: World)
    requires JoinsOne(world) && !ExportRaises(card, world)
    ensures Trip(card, collection, world) == Ok(Normal(card, collection))
  {
    var id := Sanitize(card.id);
    hide FormatOf, KindsOf, AssetsOf, BandsOf, NormalBands, SpatialOf, NormalSpatial, TemporalOf, NormalTemporal, LinksOf;
    hide Sanitize, GeometryOf, ExportRaises, Endpoint, AssetKind, EpsgOf, GsdOf, StartOf, EndOf, Box;
    KindsBack(card, id, world);
    BandsSurvive(card, id);
    LinkBack(card, collection, id);
    var item := Exported(card, collection, world).value;
    PlaceAndTime(card, item);
    assert TagsFor(Truthy(collection)) == TagsFor(collection);
    assert DefaultDescription(id, Truthy(collection)) == DefaultDescription(id, collection);
  }

  /** The normal form is a fixed point. */
  lemma NormalTwice(card: Card, collection: Option<string>)
    ensures Normal(Normal(card, collection), collection) == Normal(card, collection)
  {
    NormalPlaceTwice(card, Normal(card, collection));
    SanitizeTwice(card.id);
    NormalBandsTwice(card.bands);
    hide NormalBands, Sanitize, NormalSpatial, NormalTemporal, TagsFor, ProvenanceFor, DefaultDescription;
    DescriptionSaysSomething(Sanitize(card.id), collection);
  }

  lemma DescriptionSaysSomething(id: string, collection: Option<string>)
    ensures DefaultDescription(id, collection) != ""
  {
    assert |DefaultDescription(id, collection)| > 0;
  }

  lemma NormalPlaceTwice(card: Card, n: Card)
    requires n.spatial == NormalSpatial(card) && n.temporal == NormalTemporal(card)
    ensures NormalSpatial(n) == NormalSpatial(card) && NormalTemporal(n) == NormalTemporal(card)
  {
    hide Canonical, CodeFrom;
    if EpsgOf(card).Some? {
      CanonicalCode(EpsgOf(card).value);
    }
  }

  /** A second trip changes nothing, exactly if it is possible: if the card has
      no box or one of at least four values. */
  lemma SecondTrip(card: Card, collection: Option<string>, world: World)
    requires JoinsOne(world) && !ExportRaises(card, world)
    ensures
      var once := Normal(card, collection);
      && Trip(card, collection, world) == Ok(once)
      && Trip(once, collection, world)
         == if Box(card).None? || |Box(card).value| >= 4 then Ok(once) else Err(IndexError)
  {
    hide NormalBands, Sanitize, Epsg, Canonical;
    var once := Normal(card, collection);
    TripIsNormal(card, collection, world);
    NormalTwice(card, collection);
    if Box(card).None? || |Box(card).value| >= 4 {
      assert !ExportRaises(once, world);
      TripIsNormal(once, collection, world);
    } else {
      assert ExportRaises(once, world);
    }
  }

  // ---------------------------------------------------------------------
  // Which fields come back as they were
  // ---------------------------------------------------------------------

  function BboxField(card: Card): Option<seq<real>> {
    if card.spatial.Some? then card.spatial.value.bbox else None
  }

  function CrsField(card: Card): Option<string> {
    if card.spatial.Some? then card.spatial.value.crs else None
  }

  function ResolutionField(card: Card): Option<real> {
    if card.spatial.Some? then card.spatial.value.resolution else None
  }

  function StartField(card: Card): Option<string> {
    if card.temporal.Some? then card.temporal.value.start else None
  }

  function EndField(card: Card): Option<string> {
    if card.temporal.Some? then card.temporal.value.end else None
  }

  ghost predicate CanonicalCrs(crs: string) {
    exists n: nat :: n > 0 && crs == Canonical(n)
  }

  /** Id, names and time come back exactly under these conditions: an id of
      allowed characters, texts that are not empty, and an end wherever there
      is a start. */
  lemma TextsKeptExactly(card: Card, collection: Option<string>)
    ensures var n := Normal(card, collection);
      && (n.id == card.id <==> Text.All(card.id, Allowed))
      && (n.name == card.name <==> card.name != "" || card.id == "")
      && (n.description == card.description <==> card.description != "")
      && (StartField(n) == StartField(card) <==> StartField(card) != Some(""))
      && (EndField(n) == EndField(card) <==> EndField(card) != Some("") && (Given(StartField(card)) ==> EndField(card).Some?))
  {
    hide Sanitize, NormalBands, NormalSpatial, AssetKind;
    SanitizeKeepsExactly(card.id);
    SanitizeAllowed(card.id);
    assert |DefaultDescription(Sanitize(card.id), collection)| > 0;
  }

  /** Box, reference system, resolution and bands come back exactly under
      these conditions: one to four box values if there is a box, a canonical
      non-zero EPSG code, a resolution that is not zero, and distinct, named
      bands without empty or free-text fields. */
  lemma DataKeptExactly(card: Card, collection: Option<string>)
    ensures var n := Normal(card, collection);
      && (BboxField(n) == BboxField(card) <==> BboxField(card).Some? ==> 1 <= |BboxField(card).value| <= 4)
      && (CrsField(n) == CrsField(card) <==> CrsField(card).Some? ==> CanonicalCrs(CrsField(card).value))
      && (ResolutionField(n) == ResolutionField(card) <==> ResolutionField(card) != Some(0.0))
      && (n.bands == card.bands <==>
            DistinctNames(card.bands) && AllClean(card.bands) && forall b :: b in card.bands ==> HasName(b))
  {
    BandsKeptExactly(card.bands);
    CrsKeptExactly(card, collection);
    hide Sanitize, NormalBands, NormalTemporal, AssetKind, Epsg, CanonicalCrs, Canonical;
  }

  lemma NoCrsNoCode(card: Card)
    ensures CrsField(card).None? ==> EpsgOf(card).None?
  {
  }

  lemma CrsKeptExactly(card: Card, collection: Option<string>)
    ensures CrsField(Normal(card, collection)) == CrsField(card) <==>
      (CrsField(card).Some? ==> CanonicalCrs(CrsField(card).value))
  {
    hide Sanitize, NormalBands, NormalTemporal, AssetKind, Epsg, Canonical;
    NoCrsNoCode(card);
    if CrsField(card).None? {
    } else if CanonicalCrs(CrsField(card).value) {
      var n: nat :| n > 0 && CrsField(card).value == Canonical(n);
      CanonicalCode(n);
    }
  }

  /** A spatial section that says something, and only what an item carries. */
  ghost predicate PlainSpatial(s: Spatial) {
    && s.geometry.None? && s.resolution != Some(0.0)
    && (s.bbox.Some? ==> 1 <= |s.bbox.value| <= 4) && (s.crs.Some? ==> CanonicalCrs(s.crs.value))
    && (s.bbox.Some? || s.crs.Some? || s.resolution.Some?)
  }

  /** A window with an end, and a start that is not empty if there is one. */
  predicate PlainTemporal(t: Temporal) {
    t.interval.None? && Given(t.end) && (t.start.Some? ==> Given(t.start))
  }

  /** Access by STAC, with a format and an address, which may be empty for a card
      that has no id and no collection. */
  predicate PlainAccess(a: Access, id: string, collection: Option<string>) {
    && a.protocol == Some("stac") && a.auth.None? && Given(a.format)
    && (Given(a.endpoint) || (a.endpoint == Some("") && id == "" && !Given(collection)))
  }

  /** The card is one that an import from this collection could have made, and
      says nothing that an item does not carry. */
  ghost predicate LikeImported(card: Card, collection: Option<string>) {
    && card.version == "0.1" && card.kind == "data" && card.capabilities == [] && card.others.None?
    && Text.All(card.id, Allowed) && (card.name != "" || card.id == "") && card.description != ""
    && card.tags == TagsFor(collection) && card.provenance == Some(ProvenanceFor(card.id, None, Truthy(collection)))
    && (card.spatial.Some? ==> PlainSpatial(card.spatial.value))
    && (card.temporal.Some? ==> PlainTemporal(card.temporal.value))
    && DistinctNames(card.bands) && AllClean(card.bands) && (forall b :: b in card.bands ==> HasName(b))
    && card.access.Some? && PlainAccess(card.access.value, card.id, collection)
    && (card.license.Some? ==> card.license.value.Structured? && Given(card.license.value.name) && card.license.value.url.None?)
  }

  lemma SpatialKeptExactly(card: Card)
    ensures NormalSpatial(card) == card.spatial <==> (card.spatial.Some? ==> PlainSpatial(card.spatial.value))
  {
    CrsKeptExactly(card, None);
    NoCrsNoCode(card);
    hide Epsg, CanonicalCrs, Canonical, Sanitize, NormalBands, NormalTemporal, AssetKind;
    var sp := NormalSpatial(card);
    assert CrsField(Normal(card, None)) == if sp.Some? then sp.value.crs else None;
  }

  lemma TemporalKeptExactly(card: Card)
    ensures NormalTemporal(card) == card.temporal <==> (card.temporal.Some? ==> PlainTemporal(card.temporal.value))
  {
  }

  /** A card comes back whole exactly if it is like one that was imported from
      the collection it is published in. */
  lemma WholeCardKeptExactly(card: Card, collection: Option<string>)
    ensures Normal(card, collection) == card <==> LikeImported(card, collection)
  {
    SanitizeKeepsExactly(card.id);
    SanitizeAllowed(card.id);
    SpatialKeptExactly(card);
    TemporalKeptExactly(card);
    BandsKeptExactly(card.bands);
    hide Sanitize, NormalBands, NormalSpatial, NormalTemporal, PlainSpatial, PlainTemporal, DistinctNames, AllClean;
    assert |DefaultDescription(Sanitize(card.id), collection)| > 0;
  }

  /** Publishing a card and reading it back is the identity on the cards that
      are like imported ones, and on no others. */
  lemma TripIsIdentityExactly(card: Card, collection: Option<string>, world: World)
    requires JoinsOne(world) && !ExportRaises(card, world)
    ensures Trip(card, collection, world) == Ok(card) <==> LikeImported(card, collection)
  {
    hide LikeImported, ExportRaises, Trip, Normal;
    WholeCardKeptExactly(card, collection);
    TripIsNormal(card, collection, world);
  }

  // ---------------------------------------------------------------------
  // The exported item, field by field
  // ---------------------------------------------------------------------

  /** The text or nothing, as a field of the item shows it. */
  predicate Shows(field: Option<string>, s: Option<string>) {
    field == if s.Some? && s.value != "" then s else None
  }

  /** The card has a box too short to draw and no geometry that can be read. */
  predicate DrawsTooShort(card: Card, world: World) {
    && card.spatial.Some?
    && var p := card.spatial.value;
       && p.bbox.Some? && 0 < |p.bbox.value| < 4
       && (p.geometry.None? || p.geometry.value == "" || world.parse(p.geometry.value).None?)
  }

  /** The geometry of the item is the one the card declares, if it can be read and
      is not empty, and otherwise the four corners of its box. */
  predicate GeometryShows(card: Card, world: World, geometry: Option<Geometry>) {
    if card.spatial.None? then geometry.None?
    else
      var p := card.spatial.value;
      if p.geometry.Some? && p.geometry.value != "" && world.parse(p.geometry.value).Some? then
        var own := world.parse(p.geometry.value).value;
        geometry == if own != "" then Some(Declared(own)) else None
      else if p.bbox.Some? && p.bbox.value != [] then
        && |p.bbox.value| >= 4
        && var west, south, east, north := p.bbox.value[0], p.bbox.value[1], p.bbox.value[2], p.bbox.value[3];
           geometry == Some(Polygon([(west, south), (east, south), (east, north), (west, north), (west, south)]))
      else geometry.None?
  }

  predicate PropertiesShow(card: Card, p: Properties) {
    && (card.temporal.None? ==> p.datetime.None? && p.start.None? && p.end.None?)
    && (card.temporal.Some? ==>
          Shows(p.datetime, card.temporal.value.start) && Shows(p.start, card.temporal.value.start)
          && Shows(p.end, card.temporal.value.end))
    && p.title == Some(card.name) && p.description == Some(card.description) && p.provider.None?
    && p.license == (match card.license case None => None case Some(Plain(text)) => Some(text) case Some(Structured(name, _)) => name)
    && (card.spatial.None? ==> p.epsg.None? && p.gsd.None?)
    && (card.spatial.Some? ==>
          && p.epsg == (if Epsg(card.spatial.value.crs) == Some(0) then None else Epsg(card.spatial.value.crs))
          && p.gsd == (if card.spatial.value.resolution == Some(0.0) then None else card.spatial.value.resolution))
  }

  /** Where the first band of the name stands. */
  function FirstNamed(bands: seq<Band>, name: string): (n: nat)
    ensures n <= |bands| && (n < |bands| ==> bands[n].name == name)
    ensures forall j :: 0 <= j < n ==> bands[j].name != name
  {
    FirstPlace(bands, (b: Band) => b.name == name)
  }

  /** Band `i` is the last of its name. */
  ghost predicate LastOfName(bands: seq<Band>, i: int) {
    0 <= i < |bands| && forall j :: i < j < |bands| ==> bands[j].name != bands[i].name
  }

  /** The asset of a band, at the endpoint of the card or under the id of the item. */
  predicate AssetShows(a: Asset, b: Band, endpoint: Option<string>, format: Option<string>, id: string) {
    && a.key == b.name && |a.bands| == 1
    && a.href == (if endpoint.Some? && endpoint.value != "" then endpoint.value else id + "/" + b.name)
    && a.kind == (if format.Some? && format.value != "" then format.value else "application/octet-stream")
    && a.bands[0].name == b.name && Shows(a.bands[0].dtype, b.dtype) && Shows(a.bands[0].units, b.units)
    && a.bands[0].description.None?
  }

  ghost predicate ShowsABand(a: Asset, bands: seq<Band>, endpoint: Option<string>, format: Option<string>, id: string) {
    exists i :: LastOfName(bands, i) && AssetShows(a, bands[i], endpoint, format, id)
  }

  ghost predicate IsShown(bands: seq<Band>, i: int, assets: seq<Asset>, endpoint: Option<string>, format: Option<string>, id: string) {
    0 <= i < |bands| && exists a :: a in assets && AssetShows(a, bands[i], endpoint, format, id)
  }

  /** Without bands there is one asset, for the card itself. Otherwise there is one
      for each name of a band, in the order of first appearance, and it shows the
      last band of the name. */
  ghost predicate AssetsShow(card: Card, id: string, assets: seq<Asset>) {
    var endpoint := if card.access.Some? then card.access.value.endpoint else None;
    var format := if card.access.Some? then card.access.value.format else None;
    if card.bands == [] then
      assets == [Asset("geocard",
                       if endpoint.Some? && endpoint.value != "" then endpoint.value else id + ".json",
                       if format.Some? && format.value != "" then format.value else "application/geo+json", [])]
    else
      && (forall a :: a in assets ==> ShowsABand(a, card.bands, endpoint, format, id))
      && (forall i :: LastOfName(card.bands, i) ==> IsShown(card.bands, i, assets, endpoint, format, id))
      && (forall m, n :: 0 <= m < n < |assets| ==> FirstNamed(card.bands, assets[m].key) < FirstNamed(card.bands, assets[n].key))
  }

  /** What an item says about its card. */
  ghost predicate ItemSays(card: Card, collection: Option<string>, world: World, item: Item) {
    && item.id == Sanitize(card.id) && Shows(item.collection, collection)
    && item.bbox == (if card.spatial.Some? && card.spatial.value.bbox != Some([]) then card.spatial.value.bbox else None)
    && GeometryShows(card, world, item.geometry)
    && PropertiesShow(card, item.properties)
    && AssetsShow(card, item.id, item.assets)
    && var endpoint := if card.access.Some? then card.access.value.endpoint else None;
       item.links == (if endpoint.Some? && endpoint.value != "" then [Link("self", endpoint.value)] else [])
                     + (if collection.Some? && collection.value != "" then [Link("collection", "collections/" + collection.value)] else [])
  }

  lemma ExportedSays(card: Card, collection: Option<string>, world: World)
    ensures Exported(card, collection, world).Err? <==> DrawsTooShort(card, world)
    ensures Exported(card, collection, world).Ok? ==> ItemSays(card, collection, world, Exported(card, collection, world).value)
  {
    hide AssetsOf, AssetsShow, Sanitize, Epsg;
    AssetsOfShow(card, Sanitize(card.id));
  }

  /** The band is the last of its name, cleaned. */
  ghost predicate IsLast(bands: seq<Band>, b: Band) {
    exists i :: LastAt(bands, b, i)
  }

  ghost predicate LastAt(bands: seq<Band>, b: Band, i: int) {
    LastOfName(bands, i) && b == Clean(bands[i])
  }

  lemma LastAtNext(bands: seq<Band>, b: Band, i: int)
    requires bands != []
    ensures var k := |bands| - 1;
      LastAt(bands, b, i) <==>
        if i == k then b == Clean(bands[k]) else LastAt(bands[..k], b, i) && b.name != bands[k].name
    ensures LastAt(bands, b, i) ==> 0 <= i < |bands|
  {
    var k := |bands| - 1;
    assert forall j :: 0 <= j < k ==> bands[..k][j] == bands[j];
  }

  lemma LastNext(bands: seq<Band>, b: Band)
    requires bands != []
    ensures var k := |bands| - 1;
      IsLast(bands, b) <==> b == Clean(bands[k]) || (IsLast(bands[..k], b) && b.name != bands[k].name)
  {
    hide LastAt, Clean;
    var k := |bands| - 1;
    forall i
      ensures LastAt(bands, b, i) <==>
        if i == k then b == Clean(bands[k]) else LastAt(bands[..k], b, i) && b.name != bands[k].name
      ensures LastAt(bands[..k], b, i) ==> i != k
    {
      LastAtNext(bands, b, i);
      if LastAt(bands[..k], b, i) {
        LastAtRange(bands[..k], b, i);
      }
    }
    assert LastAt(bands, b, k) <==> b == Clean(bands[k]);
  }

  lemma LastAtRange(bands: seq<Band>, b: Band, i: int)
    requires LastAt(bands, b, i)
    ensures 0 <= i < |bands|
  {
  }

  /** The dictionary holds the last band of each name, cleaned. */
  lemma {:induction false} MergedLast(bands: seq<Band>)
    ensures DistinctNames(Merged(bands)) && forall b :: b in Merged(bands) <==> IsLast(bands, b)
    decreases |bands|
  {
    hide Put, DistinctNames, IsLast;
    if bands != [] {
      var k := |bands| - 1;
      MergedLast(bands[..k]);
      PutMember(Merged(bands[..k]), Clean(bands[k]));
      PutDistinct(Merged(bands[..k]), Clean(bands[k]));
      forall b ensures b in Merged(bands) <==> IsLast(bands, b) {
        LastNext(bands, b);
      }
    } else {
      NoneLast();
    }
  }

  lemma NoneLast()
    ensures DistinctNames([]) && forall b :: !IsLast([], b)
  {
  }

  predicate Named(bands: seq<Band>, name: string) {
    exists c :: c in bands && c.name == name
  }

  lemma NamedTail(bands: seq<Band>, name: string)
    requires bands != []
    ensures Named(bands, name) <==> bands[0].name == name || Named(bands[1..], name)
  {
    assert bands == [bands[0]] + bands[1..];
  }

  /** Assigning keeps the names where they are, or adds one at the end. */
  lemma {:induction false} PutNames(bands: seq<Band>, b: Band)
    ensures Named(bands, b.name) ==>
      |Put(bands, b)| == |bands| && forall m :: 0 <= m < |bands| ==> Put(bands, b)[m].name == bands[m].name
    ensures !Named(bands, b.name) ==> Put(bands, b) == bands + [b]
  {
    hide Named;
    if bands != [] {
      NamedTail(bands, b.name);
      if bands[0].name != b.name {
        PutNames(bands[1..], b);
        assert forall m :: 1 <= m < |bands| ==> bands[m] == bands[1..][m - 1];
      }
    } else {
      NothingNamed(b.name);
    }
  }

  lemma NothingNamed(name: string)
    ensures !Named([], name)
  {
  }

  lemma FirstInPrefix(bands: seq<Band>, k: nat, name: string)
    requires k <= |bands|
    ensures FirstNamed(bands[..k], name) < k ==> FirstNamed(bands, name) == FirstNamed(bands[..k], name)
    ensures FirstNamed(bands[..k], name) == k ==> FirstNamed(bands, name) >= k
  {
    var n, m := FirstNamed(bands[..k], name), FirstNamed(bands, name);
    assert forall j :: 0 <= j < k ==> bands[..k][j] == bands[j];
  }

  /** The names of the list stand in the order of their first appearance. */
  ghost predicate InOrder(bands: seq<Band>, merged: seq<Band>) {
    && (forall m :: 0 <= m < |merged| ==> FirstNamed(bands, merged[m].name) < |bands|)
    && (forall m, n :: 0 <= m < n < |merged| ==> FirstNamed(bands, merged[m].name) < FirstNamed(bands, merged[n].name))
  }

  lemma OrderOfPrefix(bands: seq<Band>, merged: seq<Band>)
    requires bands != [] && InOrder(bands[..|bands| - 1], merged)
    ensures InOrder(bands, merged)
    ensures forall m :: 0 <= m < |merged| ==> FirstNamed(bands, merged[m].name) < |bands| - 1
  {
    hide FirstNamed;
    var k := |bands| - 1;
    forall m | 0 <= m < |merged| ensures FirstNamed(bands, merged[m].name) == FirstNamed(bands[..k], merged[m].name) < k {
      FirstInPrefix(bands, k, merged[m].name);
    }
  }

  lemma OrderOfNames(bands: seq<Band>, merged: seq<Band>, renewed: seq<Band>)
    requires InOrder(bands, merged) && |renewed| == |merged|
    requires forall m :: 0 <= m < |merged| ==> renewed[m].name == merged[m].name
    ensures InOrder(bands, renewed)
  {
    hide FirstNamed;
  }

  lemma OrderOfMore(bands: seq<Band>, merged: seq<Band>, b: Band)
    requires bands != [] && InOrder(bands, merged) && FirstNamed(bands, b.name) == |bands| - 1
    requires forall m :: 0 <= m < |merged| ==> FirstNamed(bands, merged[m].name) < |bands| - 1
    ensures InOrder(bands, merged + [b])
  {
    hide FirstNamed;
  }

  /** The dictionary keeps the order in which names first appear. */
  lemma {:induction false} MergedOrder(bands: seq<Band>)
    ensures InOrder(bands, Merged(bands))
    ensures forall name :: Named(Merged(bands), name) <==> Named(bands, name)
    decreases |bands|
  {
    hide Put, FirstNamed, InOrder, Named;
    if bands == [] {
      NothingOrdered();
    } else {
      var k := |bands| - 1;
      var before, last := Merged(bands[..k]), Clean(bands[k]);
      MergedOrder(bands[..k]);
      PutNames(before, last);
      OrderOfPrefix(bands, before);
      NamedNext(bands, before, last);
      if Named(before, last.name) {
        OrderOfNames(bands, before, Put(before, last));
      } else {
        FirstOfLast(bands);
        OrderOfMore(bands, before, last);
      }
    }
  }

  lemma NothingOrdered()
    ensures InOrder([], []) && forall name :: !Named([], name)
  {
  }

  lemma NamedNext(bands: seq<Band>, before: seq<Band>, last: Band)
    requires bands != [] && last.name == bands[|bands| - 1].name
    requires forall name :: Named(before, name) <==> Named(bands[..|bands| - 1], name)
    ensures forall name :: Named(Put(before, last), name) <==> Named(bands, name)
  {
    hide Put, Named;
    var k := |bands| - 1;
    PutNames(before, last);
    forall name ensures Named(Put(before, last), name) <==> Named(bands, name) {
      NamedEnd(bands[..k], bands[k], name);
      assert bands == bands[..k] + [bands[k]];
      NamedEnd(before, last, name);
      if Named(before, last.name) {
        SameNamed(before, Put(before, last), name);
      }
    }
  }

  lemma NamedEnd(bands: seq<Band>, b: Band, name: string)
    ensures Named(bands + [b], name) <==> Named(bands, name) || b.name == name
  {
    assert b in bands + [b];
  }

  lemma SameNamed(a: seq<Band>, b: seq<Band>, name: string)
    requires |a| == |b| && forall m :: 0 <= m < |a| ==> b[m].name == a[m].name
    ensures Named(a, name) <==> Named(b, name)
  {
    if c :| c in a && c.name == name {
      var m :| 0 <= m < |a| && a[m] == c;
      assert b[m] in b;
    }
    if c :| c in b && c.name == name {
      var m :| 0 <= m < |b| && b[m] == c;
      assert a[m] in a;
    }
  }

  lemma FirstOfLast(bands: seq<Band>)
    requires bands != [] && !Named(bands[..|bands| - 1], bands[|bands| - 1].name)
    ensures FirstNamed(bands, bands[|bands| - 1].name) == |bands| - 1
  {
    hide FirstNamed;
    var k := |bands| - 1;
    forall j | 0 <= j < k ensures bands[j].name != bands[k].name {
      assert bands[..k][j] in bands[..k];
    }
  }

  lemma AssetsOfShow(card: Card, id: string)
    ensures AssetsShow(card, id, AssetsOf(card, id))
  {
    if card.bands != [] {
      hide Merged, LastOfName, FirstNamed, IsLast, IsShown, ShowsABand, InOrder, Named;
      var endpoint, format := Endpoint(card), MediaType(card);
      var merged, assets := Merged(card.bands), AssetsOf(card, id);
      MergedLast(card.bands);
      MergedOrder(card.bands);
      forall a | a in assets ensures ShowsABand(a, card.bands, endpoint, format, id) {
        var m :| 0 <= m < |assets| && assets[m] == a;
        assert merged[m] in merged;
        LastIsShown(card.bands, merged[m], a, endpoint, format, id);
      }
      forall i | LastOfName(card.bands, i) ensures IsShown(card.bands, i, assets, endpoint, format, id) {
        LastCleaned(card.bands, i);
        var m :| 0 <= m < |merged| && merged[m] == Clean(card.bands[i]);
        Shown(card.bands, i, assets, m, endpoint, format, id);
      }
      KeysInOrder(card.bands, merged, assets);
    }
  }

  lemma LastCleaned(bands: seq<Band>, i: int)
    requires LastOfName(bands, i)
    ensures 0 <= i < |bands| && IsLast(bands, Clean(bands[i]))
  {
    assert LastAt(bands, Clean(bands[i]), i);
  }

  lemma LastIsShown(bands: seq<Band>, b: Band, a: Asset, endpoint: Option<string>, format: Option<string>, id: string)
    requires IsLast(bands, b) && a == ToAsset(endpoint, Or(format, "application/octet-stream"), id)(b)
    ensures ShowsABand(a, bands, endpoint, format, id)
  {
    var i :| LastAt(bands, b, i);
    assert AssetShows(a, bands[i], endpoint, format, id);
  }

  lemma Shown(bands: seq<Band>, i: nat, assets: seq<Asset>, m: nat, endpoint: Option<string>, format: Option<string>, id: string)
    requires i < |bands| && m < |assets|
    requires assets[m] == ToAsset(endpoint, Or(format, "application/octet-stream"), id)(Clean(bands[i]))
    ensures IsShown(bands, i, assets, endpoint, format, id)
  {
    assert assets[m] in assets && AssetShows(assets[m], bands[i], endpoint, format, id);
  }

  lemma KeysInOrder(bands: seq<Band>, merged: seq<Band>, assets: seq<Asset>)
    requires InOrder(bands, merged) && |assets| == |merged| && forall m :: 0 <= m < |merged| ==> assets[m].key == merged[m].name
    ensures forall m, n :: 0 <= m < n < |assets| ==> FirstNamed(bands, assets[m].key) < FirstNamed(bands, assets[n].key)
  {
    hide FirstNamed;
  }

  // ---------------------------------------------------------------------
  // The imported card, field by field
  // ---------------------------------------------------------------------

  /** The section on space is there if the item says anything about it. */
  predicate SpatialSays(item: Item, spatial: Option<Spatial>) {
    var box := if item.bbox.Some? then item.bbox.value else [];
    if box == [] && item.properties.epsg.None? && item.properties.gsd.None? then spatial.None?
    else
      && spatial.Some?
      && spatial.value.bbox == (if box == [] then None else if |box| <= 4 then Some(box) else Some([box[0], box[1], box[2], box[3]]))
      && (item.properties.epsg.None? ==> spatial.value.crs.None?)
      && (item.properties.epsg.Some? ==> spatial.value.crs == Some("EPSG:" + Text.Numeral(item.properties.epsg.value)))
      && spatial.value.resolution == item.properties.gsd && spatial.value.geometry.None?
  }

  /** The single time of an item stands for a bound it does not give. */
  predicate TemporalSays(p: Properties, temporal: Option<Temporal>) {
    var start := if p.start.Some? then p.start else p.datetime;
    var end := if p.end.Some? then p.end else p.datetime;
    if (start.None? || start.value == "") && (end.None? || end.value == "") then temporal.None?
    else temporal.Some? && Shows(temporal.value.start, start) && Shows(temporal.value.end, end) && temporal.value.interval.None?
  }

  /** The named bands of the assets, and their types in one text. */
  ghost predicate AssetsSay(item: Item, world: World, bands: seq<Band>, format: Option<string>) {
    && (forall b :: b in bands <==> b.name != "" && exists a :: a in item.assets && b in a.bands)
    && if forall a :: a in item.assets ==> a.kind == "" then format == Some("unknown")
       else
         exists kinds: set<string> :: (forall k :: k in kinds <==> k != "" && exists a :: a in item.assets && a.kind == k)
           && format == Some(if world.join(kinds) == "" then "unknown" else world.join(kinds))
  }

  /** What a card says about the item it was read from. */
  ghost predicate CardSays(item: Item, world: World, card: Card) {
    var p := item.properties;
    var from := if item.collection.Some? && item.collection.value != "" then item.collection.value else "";
    && card.version == "0.1" && card.id == item.id && card.kind == "data" && card.capabilities == [] && card.others.None?
    && card.name == (if p.title.Some? && p.title.value != "" then p.title.value else item.id)
    && card.description == (if p.description.Some? && p.description.value != "" then p.description.value
                            else "STAC item '" + item.id + "'" + if from != "" then " from collection '" + from + "'" else "")
    && card.tags == (if from != "" then ["stac", "stac-collection:" + from] else ["stac"])
    && SpatialSays(item, card.spatial) && TemporalSays(p, card.temporal)
    && card.access.Some? && card.access.value.protocol == Some("stac") && card.access.value.auth.None?
    && card.access.value.endpoint == Some(if item.links != [] && item.links[0].href != "" then item.links[0].href else item.id)
    && AssetsSay(item, world, card.bands, card.access.value.format)
    && card.provenance == Some(Provenance(
         if p.provider.Some? && p.provider.value != "" then p.provider.value else if from != "" then from else "unknown",
         item.id,
         "Imported from STAC (collection=" + (if item.collection.Some? then item.collection.value else "None") + ")"))
    && card.license == (if p.license.Some? && p.license.value != "" then Some(Structured(p.license, None)) else None)
  }

  lemma ImportedSays(item: Item, world: World)
    ensures CardSays(item, world, Imported(item, world))
  {
    hide AssetsSay, BandsOf, KindsOf, FormatOf, SpatialSays, TemporalSays, SpatialOf, TemporalOf, DefaultDescription, TagsFor;
    AssetsAreSaid(item, world);
    PlaceAndTimeSaid(item);
    CollectionSaid(item.id, item.collection);
  }

  lemma CollectionSaid(id: string, collection: Option<string>)
    ensures var from := if collection.Some? && collection.value != "" then collection.value else "";
      && DefaultDescription(id, collection) == "STAC item '" + id + "'" + (if from != "" then " from collection '" + from + "'" else "")
      && TagsFor(collection) == if from != "" then ["stac", "stac-collection:" + from] else ["stac"]
  {
    var from := if collection.Some? && collection.value != "" then collection.value else "";
    assert ["stac"] + ["stac-collection:" + from] == ["stac", "stac-collection:" + from];
  }

  lemma PlaceAndTimeSaid(item: Item)
    ensures SpatialSays(item, SpatialOf(item)) && TemporalSays(item.properties, TemporalOf(item))
  {
    var box := if item.bbox.Some? then item.bbox.value else [];
    assert |box| >= 4 ==> box[..4] == [box[0], box[1], box[2], box[3]];
  }

  lemma AssetsAreSaid(item: Item, world: World)
    ensures AssetsSay(item, world, BandsOf(item.assets), Some(FormatOf(KindsOf(item.assets), world)))
  {
    hide BandsOf;
    BandsOfMember(item.assets);
    var kinds := KindsOf(item.assets);
    if a :| a in item.assets && a.kind != "" {
      assert a.kind in kinds;
    } else {
      assert kinds == {};
    }
    assert forall k :: k in kinds <==> k != "" && exists a :: a in item.assets && a.kind == k;
  }

  lemma {:induction false} BandsOfMember(assets: seq<Asset>)
    ensures forall b :: b in BandsOf(assets) <==> b.name != "" && exists a :: a in assets && b in a.bands
  {
    hide Filter;
    if assets != [] {
      assert assets == [assets[0]] + assets[1..];
      BandsOfMember(assets[1..]);
      FilterMember(assets[0].bands, HasName);
    }
  }

  // ---------------------------------------------------------------------
  // The adapters as they run
  // ---------------------------------------------------------------------

  /** Assigning in the dictionary of assets. */
  function PutAsset(assets: seq<Asset>, a: Asset): seq<Asset> {
    if assets == [] then [a]
    else if assets[0].key == a.key then [a] + assets[1..]
    else [assets[0]] + PutAsset(assets[1..], a)
  }

  lemma {:induction false} PutMaps(bands: seq<Band>, b: Band, endpoint: Option<string>, kind: string, id: string)
    ensures PutAsset(Map(bands, ToAsset(endpoint, kind, id)), ToAsset(endpoint, kind, id)(b))
         == Map(Put(bands, b), ToAsset(endpoint, kind, id))
  {
    var f := ToAsset(endpoint, kind, id);
    if bands != [] {
      assert Map(bands, f)[1..] == Map(bands[1..], f);
      PutMaps(bands[1..], b, endpoint, kind, id);
      if bands[0].name == b.name {
        assert ([b] + bands[1..])[1..] == bands[1..];
      } else {
        assert ([bands[0]] + Put(bands[1..], b))[1..] == Put(bands[1..], b);
      }
    }
  }

  /** The loop over the bands. */
  method BandAssets(bands: seq<Band>, endpoint: Option<string>, kind: string, id: string) returns (assets: seq<Asset>)
    ensures assets == Map(Merged(bands), ToAsset(endpoint, kind, id))
  {
    assets := [];
    assert assets == Map(Merged(bands[..0]), ToAsset(endpoint, kind, id));
    hide Put, PutAsset, Map;
    for i := 0 to |bands|
      invariant assets == Map(Merged(bands[..i]), ToAsset(endpoint, kind, id))
    {
      PutMaps(Merged(bands[..i]), Clean(bands[i]), endpoint, kind, id);
      assert bands[..i + 1][..i] == bands[..i];
      assets := PutAsset(assets, ToAsset(endpoint, kind, id)(Clean(bands[i])));
    }
    assert bands[..|bands|] == bands;
  }

  method WriteProperties(card: Card) returns (p: Properties)
    ensures p == PropertiesOf(card)
  {
    p := Properties(None, None, None, None, None, None, None, None, None);
    if StartOf(card).Some? {
      p := p.(datetime := StartOf(card), start := StartOf(card));
    }
    if EndOf(card).Some? {
      p := p.(end := EndOf(card));
    }
    p := p.(title := Some(card.name), description := Some(card.description));
    if card.license.Some? {
      p := p.(license := LicenseText(card));
    }
    if EpsgOf(card).Some? {
      p := p.(epsg := EpsgOf(card));
    }
    if GsdOf(card).Some? {
      p := p.(gsd := GsdOf(card));
    }
  }

  method WriteAssets(card: Card, id: string) returns (assets: seq<Asset>)
    ensures assets == AssetsOf(card, id)
  {
    hide Merged, Map;
    if card.bands != [] {
      assets := BandAssets(card.bands, Endpoint(card), Or(MediaType(card), "application/octet-stream"), id);
    } else {
      assets := [Asset("geocard", Or(Endpoint(card), id + ".json"), Or(MediaType(card), "application/geo+json"), [])];
    }
  }

  method WriteLinks(endpoint: Option<string>, collection: Option<string>) returns (links: seq<Link>)
    ensures forall card :: Endpoint(card) == endpoint ==> links == LinksOf(card, collection)
  {
    links := [];
    if Given(endpoint) {
      links := links + [Link("self", endpoint.value)];
    }
    if Given(collection) {
      links := links + [Link("collection", "collections/" + collection.value)];
    }
  }

  /** `geocard_to_stac_item`. */
  method Export(card: Card, collection: Option<string>, world: World) returns (r: Result<Item, Failure>)
    ensures r == Exported(card, collection, world)
    ensures r.Err? <==> DrawsTooShort(card, world)
    ensures r.Ok? ==> ItemSays(card, collection, world, r.value)
  {
    ExportedSays(card, collection, world);
    hide ItemSays, DrawsTooShort, AssetsOf, LinksOf, PropertiesOf, Sanitize, Box, OwnGeometry, Endpoint;
    var id := Sanitize(card.id);
    var bbox := Box(card);
    var own := OwnGeometry(card, world);
    var geometry := if Given(own) then Some(Declared(own.value)) else None;
    if own.None? && bbox.Some? {
      if |bbox.value| < 4 {
        return Err(IndexError);
      }
      geometry := Some(Polygon(Corners(bbox.value)));
    }
    var p := WriteProperties(card);
    var assets := WriteAssets(card, id);
    var links := WriteLinks(Endpoint(card), collection);
    r := Ok(Item(id, p, assets, Truthy(collection), bbox, geometry, links));
  }

  /** The mutable builder that the reader drives. */
  class CardBuilder {
    var card: Card

    constructor (id: string, kind: string, name: string, description: string, version: string)
      ensures card == Card(version, id, kind, name, description, [], None, None, [], [], None, None, None, None)
    {
      card := Card(version, id, kind, name, description, [], None, None, [], [], None, None, None, None);
    }

    method Tag(tag: string)
      modifies this
      ensures card == old(card).(tags := old(card).tags + [tag])
    {
      card := card.(tags := card.tags + [tag]);
    }

    method SetSpatial(bbox: Option<seq<real>>, crs: Option<string>, resolution: Option<real>)
      modifies this
      ensures card == old(card).(spatial := Some(Spatial(bbox, crs, resolution, None)))
    {
      card := card.(spatial := Some(Spatial(bbox, crs, resolution, None)));
    }

    method SetTemporal(start: Option<string>, end: Option<string>)
      modifies this
      ensures card == old(card).(temporal := Some(Temporal(start, end, None)))
    {
      card := card.(temporal := Some(Temporal(start, end, None)));
    }

    method AddBand(b: Band)
      modifies this
      ensures card == old(card).(bands := old(card).bands + [b])
    {
      card := card.(bands := card.bands + [b]);
    }

    method SetAccess(access: Access)
      modifies this
      ensures card == old(card).(access := Some(access))
    {
      card := card.(access := Some(access));
    }

    method SetProvenance(p: Provenance)
      modifies this
      ensures card == old(card).(provenance := Some(p))
    {
      card := card.(provenance := Some(p));
    }

    method SetLicense(name: string)
      modifies this
      ensures card == old(card).(license := Some(Structured(Some(name), None)))
    {
      card := card.(license := Some(Structured(Some(name), None)));
    }
  }

  lemma {:induction false} BandsOfConcat(a: seq<Asset>, b: seq<Asset>)
    ensures BandsOf(a + b) == BandsOf(a) + BandsOf(b)
  {
    if a == [] {
      assert a + b == b;
    } else {
      assert (a + b)[1..] == a[1..] + b;
      BandsOfConcat(a[1..], b);
    }
  }

  /** The loops over assets and their bands. */
  method ReadAssets(builder: CardBuilder, assets: seq<Asset>) returns (kinds: set<string>)
    modifies builder
    ensures builder.card == old(builder.card).(bands := old(builder.card).bands + BandsOf(assets))
    ensures kinds == KindsOf(assets)
  {
    hide Filter, BandsOf, KindsOf;
    NoAssets();
    assert assets[..0] == [];
    kinds := {};
    for i := 0 to |assets|
      invariant kinds == KindsOf(assets[..i])
      invariant builder.card == old(builder.card).(bands := old(builder.card).bands + BandsOf(assets[..i]))
    {
      var a := assets[i];
      if a.kind != "" {
        kinds := kinds + {a.kind};
      }
      AddBands(builder, a.bands);
      assert assets[..i + 1] == assets[..i] + [a];
      BandsOfNext(assets[..i], a);
      KindsOfNext(assets[..i], a);
      Associates(old(builder.card).bands, BandsOf(assets[..i]), Filter(a.bands, HasName));
    }
    assert assets[..|assets|] == assets;
  }

  lemma NoAssets()
    ensures BandsOf([]) == [] && KindsOf([]) == {}
  {
  }

  lemma BandsOfNext(assets: seq<Asset>, a: Asset)
    ensures BandsOf(assets + [a]) == BandsOf(assets) + Filter(a.bands, HasName)
  {
    hide Filter;
    BandsOfConcat(assets, [a]);
    assert [a][1..] == [] && BandsOf([]) == [];
  }

  lemma KindsOfNext(assets: seq<Asset>, a: Asset)
    ensures KindsOf(assets + [a]) == KindsOf(assets) + if a.kind != "" then {a.kind} else {}
  {
    var all := assets + [a];
    forall x | x in KindsOf(assets) ensures x in KindsOf(all) {
      var b :| b in assets && b.kind != "" && b.kind == x;
      assert b in all;
    }
    if a.kind != "" {
      assert a in all;
    }
  }

  method AddBands(builder: CardBuilder, bands: seq<Band>)
    modifies builder
    ensures builder.card == old(builder.card).(bands := old(builder.card).bands + Filter(bands, HasName))
  {
    assert Filter(bands[..0], HasName) == [];
    hide Filter;
    for i := 0 to |bands|
      invariant builder.card == old(builder.card).(bands := old(builder.card).bands + Filter(bands[..i], HasName))
    {
      FilterNext(bands, i, HasName);
      if bands[i].name != "" {
        builder.AddBand(bands[i]);
      }
    }
    assert bands[..|bands|] == bands;
  }

  /** `stac_item_to_geocard`. */
  method Import(item: Item, world: World) returns (card: Card)
    ensures card == Imported(item, world) && CardSays(item, world, card)
  {
    ImportedSays(item, world);
    hide CardSays, BandsOf, KindsOf, Canonical, DefaultDescription, FormatOf, ProvenanceFor;
    var p := item.properties;
    var builder := new CardBuilder(item.id, "data", Or(p.title, item.id),
                                   Or(p.description, DefaultDescription(item.id, item.collection)), "0.1");
    builder.Tag("stac");
    if Given(item.collection) {
      builder.Tag("stac-collection:" + item.collection.value);
    }
    assert builder.card.tags == TagsFor(item.collection);
    ReadSpatial(builder, item);
    ReadTemporal(builder, item);
    var kinds := ReadAssets(builder, item.assets);
    var link := if item.links != [] then Some(item.links[0].href) else None;
    builder.SetAccess(Access(Some("stac"), Some(Or(link, item.id)), None, Some(FormatOf(kinds, world))));
    builder.SetProvenance(ProvenanceFor(item.id, p.provider, item.collection));
    if Given(p.license) {
      builder.SetLicense(p.license.value);
    }
    card := builder.card;
  }

  method ReadSpatial(builder: CardBuilder, item: Item)
    requires builder.card.spatial.None?
    modifies builder
    ensures builder.card == old(builder.card).(spatial := SpatialOf(item))
  {
    hide Canonical;
    var bbox: Option<seq<real>>, crs: Option<string>, resolution: Option<real> := None, None, None;
    if item.bbox.Some? && item.bbox.value != [] {
      bbox := Some(if |item.bbox.value| > 4 then item.bbox.value[..4] else item.bbox.value);
    }
    if item.properties.epsg.Some? {
      crs := Some(Canonical(item.properties.epsg.value));
    }
    if item.properties.gsd.Some? {
      resolution := item.properties.gsd;
    }
    if bbox.Some? || crs.Some? || resolution.Some? {
      builder.SetSpatial(bbox, crs, resolution);
    }
  }

  method ReadTemporal(builder: CardBuilder, item: Item)
    requires builder.card.temporal.None?
    modifies builder
    ensures builder.card == old(builder.card).(temporal := TemporalOf(item))
  {
    var p := item.properties;
    var start := if p.start.Some? then p.start else p.datetime;
    var end := if p.end.Some? then p.end else p.datetime;
    if Given(start) || Given(end) {
      builder.SetTemporal(Truthy(start), Truthy(end));
    }
  }
}
