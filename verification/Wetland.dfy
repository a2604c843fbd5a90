// Labelling wetland sites coastal or inland so that each country meets its
// published total
// (examples/flightway_wetland/extract_supp_table3.py).
module Wetland {
  import opened Wrappers
  import opened Filters
  import opened StableSort

  datatype Kind = Coastal | Inland

  datatype Source = PaperSection | Inferred

  datatype Site = Site(country: string, name: string, kind: Option<Kind>, source: Option<Source>)

  /** Whether a name has a word of the coast, and one of the inland. */
  datatype Hints = Hints(coastal: string -> bool, inland: string -> bool)

  datatype Quota = Quota(country: string, coastal: int)

  function HintScore(name: string, h: Hints): int {
    (if h.coastal(name) then 2 else 0) - (if h.inland(name) then 1 else 0)
  }

  // ---------------------------------------------------------------------
  // The group of a country
  // ---------------------------------------------------------------------

  /** A site of the group: its place in the list, its score, and whether its
      section has decided its kind. A decided site has no score and ranks as
      zero. */
  datatype Item = Item(pos: nat, score: int, decided: bool)

  function ItemAt(s: seq<Site>, i: nat, h: Hints): Item
    requires i < |s|
  {
    Item(i, if s[i].kind.Some? then 0 else HintScore(s[i].name, h), s[i].kind.Some?)
  }

  function ItemsUpTo(s: seq<Site>, country: string, h: Hints, k: nat): seq<Item>
    requires k <= |s|
  {
    if k == 0 then []
    else ItemsUpTo(s, country, h, k - 1) + if s[k - 1].country == country then [ItemAt(s, k - 1, h)] else []
  }

  function Items(s: seq<Site>, country: string, h: Hints): seq<Item> {
    ItemsUpTo(s, country, h, |s|)
  }

  function IsUndecided(it: Item): bool {
    !it.decided
  }

  function IsDecided(it: Item): bool {
    it.decided
  }

  function ScoreOf(it: Item): real {
    it.score as real
  }

  function PosOf(it: Item): int {
    it.pos
  }

  function CoastalIn(s: seq<Site>): Item -> bool {
    (it: Item) => it.pos < |s| && s[it.pos].kind == Some(Coastal)
  }

  /** How many of the first `k` sites are coastal sites of the country. */
  function CoastalUpTo(s: seq<Site>, country: string, k: nat): nat
    requires k <= |s|
  {
    if k == 0 then 0
    else CoastalUpTo(s, country, k - 1) + if s[k - 1].country == country && s[k - 1].kind == Some(Coastal) then 1 else 0
  }

  function CoastalCount(s: seq<Site>, country: string): nat {
    CoastalUpTo(s, country, |s|)
  }

  function SitesUpTo(s: seq<Site>, country: string, k: nat): nat
    requires k <= |s|
  {
    if k == 0 then 0 else SitesUpTo(s, country, k - 1) + if s[k - 1].country == country then 1 else 0
  }

  /** The number of sites of the country. */
  function GroupSize(s: seq<Site>, country: string): nat {
    SitesUpTo(s, country, |s|)
  }

  /** The items run by rising position through exactly the sites of the country. */
  lemma {:induction false} ItemsAre(s: seq<Site>, country: string, h: Hints, k: nat)
    requires k <= |s|
    ensures var items := ItemsUpTo(s, country, h, k);
      && |items| == SitesUpTo(s, country, k)
      && Rising(items, PosOf)
      && (forall it :: it in items <==> it.pos < k && s[it.pos].country == country && it == ItemAt(s, it.pos, h))
  {
    if k > 0 {
      ItemsAre(s, country, h, k - 1);
      var before := ItemsUpTo(s, country, h, k - 1);
      assert forall j :: 0 <= j < |before| ==> before[j] in before;
      assert ItemAt(s, k - 1, h).pos == k - 1;
      hide ItemAt;
    }
  }

  /** Counting over the list of sites is counting over the items. */
  lemma {:induction false} CountIs(was: seq<Site>, now: seq<Site>, country: string, h: Hints, k: nat)
    requires |now| == |was| && k <= |was| && forall i :: 0 <= i < |was| ==> now[i].country == was[i].country
    ensures |Filter(ItemsUpTo(was, country, h, k), CoastalIn(now))| == CoastalUpTo(now, country, k)
  {
    hide Filter;
    if k == 0 {
      FilterAll<Item>([], CoastalIn(now));
    } else {
      CountIs(was, now, country, h, k - 1);
      var more := if was[k - 1].country == country then [ItemAt(was, k - 1, h)] else [];
      FilterConcat(ItemsUpTo(was, country, h, k - 1), more, CoastalIn(now));
      if more != [] {
        FilterHead(more, CoastalIn(now));
        FilterAll<Item>(more[1..], CoastalIn(now));
      } else {
        FilterAll<Item>(more, CoastalIn(now));
      }
    }
  }

  // ---------------------------------------------------------------------
  // The result for one country
  // ---------------------------------------------------------------------

  function Undecided(s: seq<Site>, country: string, h: Hints): seq<Item> {
    Filter(Items(s, country, h), IsUndecided)
  }

  /** The published total can be met without changing a section's decision. */
  predicate Keepable(was: seq<Site>, q: Quota, h: Hints) {
    CoastalCount(was, q.country) <= q.coastal <= CoastalCount(was, q.country) + |Undecided(was, q.country, h)|
  }

  /** The ranking that decides the labels, and how many of it are coastal. */
  function Ranking(was: seq<Site>, q: Quota, h: Hints): seq<Item> {
    SortDesc(Base(was, q, h), ScoreOf)
  }

  function Take(was: seq<Site>, q: Quota, h: Hints): int {
    if Keepable(was, q, h) then q.coastal - CoastalCount(was, q.country) else q.coastal
  }

  function KindAt(r: nat, m: int): Kind {
    if r < m then Coastal else Inland
  }

  /** The first `m` of the ranking are coastal, the others inland. */
  ghost predicate KindsFollow(now: seq<Site>, ranking: seq<Item>, m: int) {
    forall r :: 0 <= r < |ranking| ==>
      ranking[r].pos < |now| && now[ranking[r].pos].kind == Some(KindAt(r, m))
  }

  /** Same list, same countries and names. */
  ghost predicate SameSites(was: seq<Site>, now: seq<Site>) {
    |now| == |was| && forall i :: 0 <= i < |was| ==> now[i].country == was[i].country && now[i].name == was[i].name
  }

  ghost predicate SectionsKept(was: seq<Site>, now: seq<Site>, country: string) {
    |now| == |was| && forall i :: 0 <= i < |was| && was[i].country == country && was[i].kind.Some? ==> now[i].kind == was[i].kind
  }

  ghost predicate SourcesTold(was: seq<Site>, now: seq<Site>, country: string) {
    |now| == |was| && forall i :: 0 <= i < |was| && was[i].country == country ==>
      now[i].source == Some(if was[i].kind.Some? then PaperSection else Inferred)
  }

  ghost predicate Labelled(was: seq<Site>, now: seq<Site>, q: Quota, h: Hints) {
    && SameSites(was, now) && SourcesTold(was, now, q.country)
    && KindsFollow(now, Ranking(was, q, h), Take(was, q, h))
    && (Keepable(was, q, h) ==> SectionsKept(was, now, q.country))
  }

  // ---------------------------------------------------------------------
  // What the labels add up to
  // ---------------------------------------------------------------------

  function Clamp(m: int, n: nat): nat {
    if m < 0 then 0 else if m > n then n else m
  }

  /** Of the first `r` of a ranking as many are coastal as are taken. */
  lemma {:induction false} RankingCount(now: seq<Site>, ranking: seq<Item>, m: int, r: nat)
    requires r <= |ranking| && KindsFollow(now, ranking, m)
    ensures |Filter(ranking[..r], CoastalIn(now))| == Clamp(m, r)
  {
    hide Filter;
    if r == 0 {
      FilterAll(ranking[..0], CoastalIn(now));
    } else {
      RankingCount(now, ranking, m, r - 1);
      FilterNext(ranking, r - 1, CoastalIn(now));
      assert CoastalIn(now)(ranking[r - 1]) <==> r - 1 < m;
    }
  }

  /** The coastal sites of the group are those of its decided and of its
      undecided part. */
  lemma PartsCount(was: seq<Site>, now: seq<Site>, country: string, h: Hints)
    requires SameSites(was, now)
    ensures CoastalCount(now, country)
         == |Filter(Filter(Items(was, country, h), IsDecided), CoastalIn(now))|
            + |Filter(Undecided(was, country, h), CoastalIn(now))|
    ensures GroupSize(was, country) == |Filter(Items(was, country, h), IsDecided)| + |Undecided(was, country, h)|
  {
    hide Filter;
    var items := Items(was, country, h);
    var decided, undecided := Filter(items, IsDecided), Filter(items, IsUndecided);
    FilterSplits(items, IsDecided, IsUndecided);
    FilterPermutes(decided + undecided, items, CoastalIn(now));
    FilterConcat(decided, undecided, CoastalIn(now));
    CountIs(was, now, country, h, |was|);
    ItemsAre(was, country, h, |was|);
  }

  /** Before any labelling, no undecided site counts as coastal; a labelling
      that keeps the sections keeps the decided part of the count. */
  lemma DecidedCount(was: seq<Site>, now: seq<Site>, country: string, h: Hints)
    requires SameSites(was, now) && SectionsKept(was, now, country)
    ensures |Filter(Filter(Items(was, country, h), IsDecided), CoastalIn(now))| == CoastalCount(was, country)
  {
    hide Filter;
    var items := Items(was, country, h);
    var decided := Filter(items, IsDecided);
    ItemsAre(was, country, h, |was|);
    FilterMember(items, IsDecided);
    FilterMember(items, IsUndecided);
    forall it | it in decided ensures CoastalIn(now)(it) == CoastalIn(was)(it) {
      assert it in items;
    }
    FilterAgree(decided, CoastalIn(now), CoastalIn(was));
    forall it | it in Undecided(was, country, h) ensures !CoastalIn(was)(it) {
      assert it in items;
    }
    FilterNone(Undecided(was, country, h), CoastalIn(was));
    PartsCount(was, was, country, h);
  }

  /** A labelling that keeps the sections can only reach the totals between
      the decided count and that plus the undecided sites: the total can be
      met with the sections kept exactly if it is one of those. */
  lemma KeepableIsNecessary(was: seq<Site>, now: seq<Site>, q: Quota, h: Hints)
    requires SameSites(was, now) && SectionsKept(was, now, q.country) && CoastalCount(now, q.country) == q.coastal
    ensures Keepable(was, q, h)
  {
    hide Filter;
    DecidedCount(was, now, q.country, h);
    PartsCount(was, now, q.country, h);
  }

  /** Every country gets its published total, or all its sites if they are
      fewer. */
  lemma TotalMet(was: seq<Site>, now: seq<Site>, q: Quota, h: Hints)
    requires Labelled(was, now, q, h)
    ensures CoastalCount(now, q.country)
         == if q.coastal < 0 then 0 else if q.coastal > GroupSize(was, q.country) then GroupSize(was, q.country) else q.coastal
  {
    hide Filter, SortDesc;
    var undecided, items := Undecided(was, q.country, h), Items(was, q.country, h);
    var ranking, m := Ranking(was, q, h), Take(was, q, h);
    RankingCount(now, ranking, m, |ranking|);
    assert ranking[..|ranking|] == ranking;
    PartsCount(was, now, q.country, h);
    if Keepable(was, q, h) {
      SortSorts(undecided, ScoreOf);
      FilterPermutes(ranking, undecided, CoastalIn(now));
      DecidedCount(was, now, q.country, h);
    } else {
      SortSorts(items, ScoreOf);
      FilterPermutes(ranking, items, CoastalIn(now));
      CountIs(was, now, q.country, h, |was|);
      ItemsAre(was, q.country, h, |was|);
    }
  }

  /** The sites that are ranked. */
  function Base(was: seq<Site>, q: Quota, h: Hints): seq<Item> {
    if Keepable(was, q, h) then Undecided(was, q.country, h) else Items(was, q.country, h)
  }

  lemma BaseIs(was: seq<Site>, q: Quota, h: Hints)
    ensures var base := Base(was, q, h);
      && Rising(base, PosOf)
      && (forall it :: it in base <==>
            it.pos < |was| && was[it.pos].country == q.country && it == ItemAt(was, it.pos, h)
            && (Keepable(was, q, h) ==> !it.decided))
  {
    hide Filter, Keepable, Rising, ItemAt;
    var items := Items(was, q.country, h);
    ItemsAre(was, q.country, h, |was|);
    RisingFilter(items, IsUndecided, PosOf);
    FilterMember(items, IsUndecided);
  }

  /** The ranking is by falling score, ties by place in the list, and names
      every ranked site once. */
  lemma RankingIs(was: seq<Site>, q: Quota, h: Hints)
    ensures var ranking := Ranking(was, q, h);
      && Ranked(ranking, ScoreOf, PosOf)
      && (forall it :: it in ranking <==>
            it.pos < |was| && was[it.pos].country == q.country && it == ItemAt(was, it.pos, h)
            && (Keepable(was, q, h) ==> !it.decided))
  {
    hide SortDesc, Ranked, Keepable, Rising, Base, ItemAt;
    var base := Base(was, q, h);
    BaseIs(was, q, h);
    SortRanks(base, ScoreOf, PosOf);
    SortSorts(base, ScoreOf);
    forall it ensures it in SortDesc(base, ScoreOf) <==> it in base {
      assert it in multiset(SortDesc(base, ScoreOf)) <==> it in multiset(base);
    }
  }

  /** Of two ranked sites, one of which ends coastal and the other inland, the
      coastal one is ranked before. */
  lemma CoastalFirst(was: seq<Site>, now: seq<Site>, q: Quota, h: Hints, i: nat, j: nat)
    requires Labelled(was, now, q, h)
    requires i < |was| && j < |was| && was[i].country == q.country && was[j].country == q.country
    requires Keepable(was, q, h) ==> was[i].kind.None? && was[j].kind.None?
    requires now[i].kind == Some(Coastal) && now[j].kind == Some(Inland)
    ensures Precedes(ItemAt(was, i, h), ItemAt(was, j, h), ScoreOf, PosOf)
  {
    hide Ranking, Keepable, Take;
    RankingIs(was, q, h);
    var ranking := Ranking(was, q, h);
    var a, b := ItemAt(was, i, h), ItemAt(was, j, h);
    assert a in ranking && b in ranking;
    var x :| 0 <= x < |ranking| && ranking[x] == a;
    var y :| 0 <= y < |ranking| && ranking[y] == b;
    assert x < Take(was, q, h) <= y;
  }

  /** When the sections can be kept, no inferred inland site scores above an
      inferred coastal one, and ties go to the earlier site. */
  lemma InferredInOrder(was: seq<Site>, now: seq<Site>, q: Quota, h: Hints, i: nat, j: nat)
    requires Labelled(was, now, q, h) && Keepable(was, q, h)
    requires i < |was| && j < |was| && was[i].country == q.country && was[j].country == q.country
    requires was[i].kind.None? && was[j].kind.None?
    requires now[i].kind == Some(Coastal) && now[j].kind == Some(Inland)
    ensures RatherCoastal(was, h, i, j)
  {
    hide Labelled, Keepable, Precedes;
    CoastalFirst(was, now, q, h, i, j);
    PrecedesMeans(was, h, i, j);
  }

  // ---------------------------------------------------------------------
  // The labels in terms of the sites alone
  // ---------------------------------------------------------------------

  /** How much the name of site `i` speaks for the coast: most with a word of the
      coast alone, less with words of both, less without any, and least with a word
      of the inland alone. A site that its section has decided counts as without any. */
  function Pull(was: seq<Site>, h: Hints, i: nat): int
    requires i < |was|
  {
    if was[i].kind.Some? then 0
    else match (h.coastal(was[i].name), h.inland(was[i].name))
         case (true, false) => 2
         case (true, true) => 1
         case (false, false) => 0
         case (false, true) => -1
  }

  /** Site `i` is taken for a coastal one before site `j` is. */
  predicate RatherCoastal(was: seq<Site>, h: Hints, i: nat, j: nat)
    requires i < |was| && j < |was|
  {
    Pull(was, h, i) > Pull(was, h, j) || (Pull(was, h, i) == Pull(was, h, j) && i < j)
  }

  lemma PrecedesMeans(was: seq<Site>, h: Hints, i: nat, j: nat)
    requires i < |was| && j < |was|
    ensures Precedes(ItemAt(was, i, h), ItemAt(was, j, h), ScoreOf, PosOf) <==> RatherCoastal(was, h, i, j)
  {
  }

  /** A place in the list of sites. */
  datatype Spot = Spot(index: nat)

  /** Where the first `k` sites pass the test. */
  function Spots(s: seq<Site>, p: Site -> bool, k: nat): set<Spot>
    requires k <= |s|
  {
    set i | 0 <= i < k && p(s[i]) :: Spot(i)
  }

  function InCountry(country: string): Site -> bool {
    (x: Site) => x.country == country
  }

  function CoastalThere(country: string): Site -> bool {
    (x: Site) => x.country == country && x.kind == Some(Coastal)
  }

  function OpenThere(country: string): Site -> bool {
    (x: Site) => x.country == country && x.kind == None
  }

  /** The sites of a country. */
  function SitesOf(s: seq<Site>, country: string): set<Spot> {
    Spots(s, InCountry(country), |s|)
  }

  /** Its coastal sites. */
  function CoastalOf(s: seq<Site>, country: string): set<Spot> {
    Spots(s, CoastalThere(country), |s|)
  }

  /** Its sites without a kind. */
  function OpenOf(s: seq<Site>, country: string): set<Spot> {
    Spots(s, OpenThere(country), |s|)
  }

  lemma {:induction false} CountsUpTo(s: seq<Site>, country: string, h: Hints, k: nat)
    requires k <= |s|
    ensures SitesUpTo(s, country, k) == |Spots(s, InCountry(country), k)|
    ensures CoastalUpTo(s, country, k) == |Spots(s, CoastalThere(country), k)|
    ensures |Filter(ItemsUpTo(s, country, h, k), IsUndecided)| == |Spots(s, OpenThere(country), k)|
  {
    hide Filter, Spots, ItemAt;
    if k == 0 {
      FilterAll<Item>([], IsUndecided);
      NoSpots(s, InCountry(country));
      NoSpots(s, CoastalThere(country));
      NoSpots(s, OpenThere(country));
    } else {
      CountsUpTo(s, country, h, k - 1);
      SpotsNext(s, InCountry(country), k - 1);
      SpotsNext(s, CoastalThere(country), k - 1);
      SpotsNext(s, OpenThere(country), k - 1);
      UndecidedNext(s, country, h, k);
    }
  }

  lemma NoSpots(s: seq<Site>, p: Site -> bool)
    ensures |Spots(s, p, 0)| == 0
  {
    assert Spots(s, p, 0) == {};
  }

  lemma SpotsNext(s: seq<Site>, p: Site -> bool, k: nat)
    requires k < |s|
    ensures |Spots(s, p, k + 1)| == |Spots(s, p, k)| + if p(s[k]) then 1 else 0
  {
    assert Spots(s, p, k + 1) == Spots(s, p, k) + if p(s[k]) then {Spot(k)} else {};
  }

  lemma UndecidedNext(s: seq<Site>, country: string, h: Hints, k: nat)
    requires 0 < k <= |s|
    ensures |Filter(ItemsUpTo(s, country, h, k), IsUndecided)|
         == |Filter(ItemsUpTo(s, country, h, k - 1), IsUndecided)|
            + if s[k - 1].country == country && s[k - 1].kind.None? then 1 else 0
  {
    hide Filter;
    var more := if s[k - 1].country == country then [ItemAt(s, k - 1, h)] else [];
    FilterConcat(ItemsUpTo(s, country, h, k - 1), more, IsUndecided);
    if more != [] {
      FilterHead(more, IsUndecided);
      FilterAll<Item>(more[1..], IsUndecided);
    } else {
      FilterAll<Item>(more, IsUndecided);
    }
  }

  /** The sections' decisions leave room for the published total. */
  predicate LeavesRoom(was: seq<Site>, q: Quota) {
    |CoastalOf(was, q.country)| <= q.coastal <= |CoastalOf(was, q.country)| + |OpenOf(was, q.country)|
  }

  /** The labels of a country: every site has one and is told where it comes from,
      as many are coastal as published, or all or none if that is not possible, and
      the coastal ones are those taken first. Sections keep their decisions if these
      leave room for the total; otherwise all sites are labelled anew. */
  ghost predicate LabelsAre(was: seq<Site>, now: seq<Site>, q: Quota, h: Hints) {
    && |now| == |was|
    && |CoastalOf(now, q.country)|
       == (if q.coastal < 0 then 0 else if q.coastal > |SitesOf(was, q.country)| then |SitesOf(was, q.country)| else q.coastal)
    && (forall i :: 0 <= i < |was| && was[i].country == q.country ==>
          && now[i].country == was[i].country && now[i].name == was[i].name && now[i].kind.Some?
          && now[i].source == Some(if was[i].kind.Some? then PaperSection else Inferred)
          && (LeavesRoom(was, q) && was[i].kind.Some? ==> now[i].kind == was[i].kind))
    && (forall i, j ::
          (0 <= i < |was| && 0 <= j < |was| && was[i].country == q.country && was[j].country == q.country
           && (LeavesRoom(was, q) ==> was[i].kind.None? && was[j].kind.None?)
           && now[i].kind == Some(Coastal) && now[j].kind == Some(Inland)) ==>
          RatherCoastal(was, h, i, j))
  }

  lemma CountsAre(s: seq<Site>, q: Quota, h: Hints)
    ensures GroupSize(s, q.country) == |SitesOf(s, q.country)| && CoastalCount(s, q.country) == |CoastalOf(s, q.country)|
    ensures Keepable(s, q, h) <==> LeavesRoom(s, q)
  {
    hide Filter, Spots, ItemsUpTo;
    CountsUpTo(s, q.country, h, |s|);
  }

  lemma LabelledAre(was: seq<Site>, now: seq<Site>, q: Quota, h: Hints)
    requires Labelled(was, now, q, h)
    ensures LabelsAre(was, now, q, h)
  {
    hide Filter, Keepable, LeavesRoom, Pull, Precedes, ItemAt, SitesOf, CoastalOf, KindsFollow, Ranking, Take, GroupSize, CoastalCount;
    TotalMet(was, now, q, h);
    CountsAre(was, q, h);
    CountsAre(now, q, h);
    forall i | 0 <= i < |was| && was[i].country == q.country ensures now[i].kind.Some? {
      AllLabelled(was, now, q, h, i);
    }
    forall i, j | 0 <= i < |was| && 0 <= j < |was| && was[i].country == q.country && was[j].country == q.country
        && (LeavesRoom(was, q) ==> was[i].kind.None? && was[j].kind.None?)
        && now[i].kind == Some(Coastal) && now[j].kind == Some(Inland)
      ensures RatherCoastal(was, h, i, j)
    {
      CoastalFirst(was, now, q, h, i, j);
      PrecedesMeans(was, h, i, j);
    }
  }

  /** The decided sites of a country have this kind. */
  predicate AllDecided(was: seq<Site>, country: string, kind: Kind) {
    forall i :: 0 <= i < |was| && was[i].country == country && was[i].kind.Some? ==> was[i].kind == Some(kind)
  }

  /** A total outside the group labels all its sites alike. */
  lemma AllAlike(was: seq<Site>, now: seq<Site>, q: Quota, h: Hints, i: nat)
    requires Labelled(was, now, q, h) && i < |was| && was[i].country == q.country
    requires q.coastal < 0 || q.coastal > GroupSize(was, q.country)
    ensures now[i].kind == Some(if q.coastal < 0 then Inland else Coastal)
  {
    hide Filter, SortDesc;
    var items, ranking := Items(was, q.country, h), Ranking(was, q, h);
    PartsCount(was, was, q.country, h);
    CountIs(was, was, q.country, h, |was|);
    DecidedCount(was, was, q.country, h);
    ItemsAre(was, q.country, h, |was|);
    assert !Keepable(was, q, h);
    SortSorts(items, ScoreOf);
    assert |ranking| == |items| == GroupSize(was, q.country) by {
      SameLength(ranking, items);
    }
    RankingIs(was, q, h);
    assert ItemAt(was, i, h) in ranking;
    var r :| 0 <= r < |ranking| && ranking[r] == ItemAt(was, i, h);
  }

  lemma SameLength(s: seq<Item>, t: seq<Item>)
    requires multiset(s) == multiset(t)
    ensures |s| == |t|
  {
    assert |s| == |multiset(s)| && |t| == |multiset(t)|;
  }

  /** Sections are said to be used directly. Their labels survive exactly if the
      total can be met with them, or if it lies outside the group, in which case
      all sites are labelled alike, and the decided ones were already. */
  lemma SectionsSurviveExactly(was: seq<Site>, now: seq<Site>, q: Quota, h: Hints)
    requires Labelled(was, now, q, h)
    ensures SectionsKept(was, now, q.country) <==>
      if q.coastal < 0 then AllDecided(was, q.country, Inland)
      else if q.coastal > GroupSize(was, q.country) then AllDecided(was, q.country, Coastal)
      else Keepable(was, q, h)
  {
    if 0 <= q.coastal <= GroupSize(was, q.country) {
      TotalMet(was, now, q, h);
      if SectionsKept(was, now, q.country) {
        KeepableIsNecessary(was, now, q, h);
      }
    } else {
      hide GroupSize, Keepable, Labelled;
      LabelledSame(was, now, q, h);
      forall i | 0 <= i < |was| && was[i].country == q.country
        ensures now[i].kind == Some(if q.coastal < 0 then Inland else Coastal)
      {
        AllAlike(was, now, q, h, i);
      }
    }
  }

  /** One inland site by its section, and a published total of one: the site ends
      as coastal, while its recorded source still is the section. */
  lemma SectionLost(country: string, name: string, now: seq<Site>, h: Hints)
    requires Labelled([Site(country, name, Some(Inland), None)], now, Quota(country, 1), h)
    ensures |now| == 1 && now[0].kind == Some(Coastal) && now[0].source == Some(PaperSection)
  {
    hide Ranking, KindsFollow, Filter, Undecided;
    var was, q := [Site(country, name, Some(Inland), None)], Quota(country, 1);
    assert GroupSize(was, country) == 1 && CoastalCount(was, country) == 0 by {
      assert SitesUpTo(was, country, 0) == 0 && CoastalUpTo(was, country, 0) == 0;
    }
    PartsCount(was, was, country, h);
    NoneUndecided(was, country, h);
    assert !Keepable(was, q, h);
    SectionsSurviveExactly(was, now, q, h);
    assert !SectionsKept(was, now, country);
    AllLabelled(was, now, q, h, 0);
    OtherKind(now[0].kind);
  }

  lemma OtherKind(kind: Option<Kind>)
    requires kind.Some?
    ensures kind == Some(Inland) || kind == Some(Coastal)
  {
    match kind.value {
      case Inland =>
      case Coastal =>
    }
  }

  lemma NoneUndecided(was: seq<Site>, country: string, h: Hints)
    requires forall i :: 0 <= i < |was| ==> was[i].kind.Some?
    ensures |Undecided(was, country, h)| == 0
  {
    var items := Items(was, country, h);
    ItemsAre(was, country, h, |was|);
    FilterNone(items, IsUndecided);
  }

  /** Every site of the country is labelled. */
  lemma AllLabelled(was: seq<Site>, now: seq<Site>, q: Quota, h: Hints, i: nat)
    requires Labelled(was, now, q, h) && i < |was| && was[i].country == q.country
    ensures now[i].kind.Some?
  {
    hide Ranking, Keepable, Take;
    if !(Keepable(was, q, h) && was[i].kind.Some?) {
      RankingIs(was, q, h);
      var ranking := Ranking(was, q, h);
      assert ItemAt(was, i, h) in ranking;
      var x :| 0 <= x < |ranking| && ranking[x] == ItemAt(was, i, h);
    }
  }

  // ---------------------------------------------------------------------
  // The labelling as it runs
  // ---------------------------------------------------------------------

  ghost predicate InGroup(was: seq<Site>, country: string, h: Hints, it: Item) {
    it.pos < |was| && was[it.pos].country == country && it == ItemAt(was, it.pos, h)
  }

  ghost predicate PlacesApart(items: seq<Item>) {
    forall i, j :: 0 <= i < j < |items| ==> items[i].pos != items[j].pos
  }

  /** Sorting part of a group gives items of the group at different places. */
  lemma SortedApart(was: seq<Site>, country: string, h: Hints, base: seq<Item>)
    requires Rising(base, PosOf) && forall it :: it in base ==> InGroup(was, country, h, it)
    ensures var sorted := SortDesc(base, ScoreOf);
      && PlacesApart(sorted) && (forall it :: it in sorted <==> it in base)
  {
    hide SortDesc, Rising, Ranked, ItemAt;
    var sorted := SortDesc(base, ScoreOf);
    SortRanks(base, ScoreOf, PosOf);
    SortSorts(base, ScoreOf);
    forall it ensures it in sorted <==> it in base {
      assert it in multiset(sorted) <==> it in multiset(base);
    }
    forall i, j | 0 <= i < j < |sorted| ensures sorted[i].pos != sorted[j].pos {
      assert sorted[i] in sorted && sorted[j] in sorted;
      RankedAt(sorted, ScoreOf, PosOf, i, j);
    }
  }

  /** The group of a country; each of its sites is told where its label comes
      from. */
  method MarkSources(sites: array<Site>, country: string, h: Hints) returns (group: seq<Item>)
    modifies sites
    ensures group == Items(old(sites[..]), country, h)
    ensures forall i :: 0 <= i < sites.Length ==>
      sites[i] == if old(sites[i].country) == country
                  then old(sites[i]).(source := Some(if old(sites[i].kind).Some? then PaperSection else Inferred))
                  else old(sites[i])
  {
    ghost var was := sites[..];
    group := [];
    for k := 0 to sites.Length
      invariant group == ItemsUpTo(was, country, h, k)
      invariant forall i :: 0 <= i < k ==>
        sites[i] == if was[i].country == country
                    then was[i].(source := Some(if was[i].kind.Some? then PaperSection else Inferred)) else was[i]
      invariant forall i :: k <= i < sites.Length ==> sites[i] == was[i]
    {
      if sites[k].country == country {
        group := group + [Item(k, if sites[k].kind.Some? then 0 else HintScore(sites[k].name, h), sites[k].kind.Some?)];
        assert ItemAt(was, k, h) == group[|group| - 1];
        sites[k] := sites[k].(source := Some(if sites[k].kind.Some? then PaperSection else Inferred));
      }
    }
  }

  /** The loops that write the labels along a ranking. */
  method AssignKinds(sites: array<Site>, ranking: seq<Item>, m: int)
    requires PlacesApart(ranking) && forall it :: it in ranking ==> it.pos < sites.Length
    modifies sites
    ensures forall r :: 0 <= r < |ranking| ==>
      ranking[r].pos < sites.Length
      && sites[ranking[r].pos] == old(sites[ranking[r].pos]).(kind := Some(KindAt(r, m)))
    ensures forall i :: 0 <= i < sites.Length && (forall it :: it in ranking ==> it.pos != i) ==> sites[i] == old(sites[i])
  {
    assert forall r :: 0 <= r < |ranking| ==> ranking[r] in ranking;
    for k := 0 to |ranking|
      invariant forall r :: 0 <= r < k ==>
        sites[ranking[r].pos] == old(sites[ranking[r].pos]).(kind := Some(KindAt(r, m)))
      invariant forall r :: k <= r < |ranking| ==> sites[ranking[r].pos] == old(sites[ranking[r].pos])
      invariant forall i :: 0 <= i < sites.Length && (forall it :: it in ranking ==> it.pos != i) ==> sites[i] == old(sites[i])
    {
      var p := ranking[k].pos;
      sites[p] := sites[p].(kind := Some(if k < m then Coastal else Inland));
    }
  }

  method CountCoastal(sites: array<Site>, group: seq<Item>) returns (n: nat)
    ensures n == |Filter(group, CoastalIn(sites[..]))|
  {
    hide Filter;
    n := 0;
    FilterAll(group[..0], CoastalIn(sites[..]));
    for k := 0 to |group|
      invariant n == |Filter(group[..k], CoastalIn(sites[..]))|
    {
      FilterNext(group, k, CoastalIn(sites[..]));
      if group[k].pos < sites.Length && sites[group[k].pos].kind == Some(Coastal) {
        n := n + 1;
      }
    }
    assert group[..|group|] == group;
  }

  /** After the first assignment the count is right exactly if the total can
      be met with the sections kept. */
  lemma FirstCount(was: seq<Site>, mid: seq<Site>, q: Quota, h: Hints)
    requires SameSites(was, mid) && SectionsKept(was, mid, q.country)
    requires KindsFollow(mid, SortDesc(Undecided(was, q.country, h), ScoreOf), q.coastal - CoastalCount(was, q.country))
    ensures CoastalCount(mid, q.country) == q.coastal <==> Keepable(was, q, h)
  {
    hide Filter, SortDesc;
    var undecided := Undecided(was, q.country, h);
    var ranking, m := SortDesc(undecided, ScoreOf), q.coastal - CoastalCount(was, q.country);
    RankingCount(mid, ranking, m, |ranking|);
    assert ranking[..|ranking|] == ranking;
    SortSorts(undecided, ScoreOf);
    FilterPermutes(ranking, undecided, CoastalIn(mid));
    PartsCount(was, mid, q.country, h);
    DecidedCount(was, mid, q.country, h);
  }

  /** The undecided part of the group, and the whole group, as lists to rank. */
  lemma GroupParts(was: seq<Site>, country: string, h: Hints)
    ensures var items, undecided := Items(was, country, h), Undecided(was, country, h);
      && Rising(items, PosOf) && Rising(undecided, PosOf)
      && (forall it :: it in items <==> InGroup(was, country, h, it))
      && (forall it :: it in undecided <==> InGroup(was, country, h, it) && was[it.pos].kind.None?)
  {
    hide Filter, Rising;
    var items := Items(was, country, h);
    ItemsAre(was, country, h, |was|);
    RisingFilter(items, IsUndecided, PosOf);
    FilterMember(items, IsUndecided);
  }

  /** Everything but the kinds is as the first pass left it. */
  ghost predicate OnlyKindsDiffer(was: seq<Site>, now: seq<Site>, country: string) {
    && SameSites(was, now) && SourcesTold(was, now, country)
    && forall i :: 0 <= i < |was| && was[i].country != country ==> now[i] == was[i]
  }

  /** Writing labels along a ranking of group members. */
  method Relabel(sites: array<Site>, base: seq<Item>, m: int, ghost was: seq<Site>, country: string, h: Hints)
    requires Rising(base, PosOf) && forall it :: it in base ==> InGroup(was, country, h, it)
    requires OnlyKindsDiffer(was, sites[..], country)
    modifies sites
    ensures OnlyKindsDiffer(was, sites[..], country)
    ensures KindsFollow(sites[..], SortDesc(base, ScoreOf), m)
    ensures forall i :: 0 <= i < sites.Length && (forall it :: it in base ==> it.pos != i) ==> sites[i] == old(sites[i])
  {
    hide SortDesc, Rising, ItemAt, KindAt, SourcesTold, Precedes, PlacesApart;
    var ranked := SortDesc(base, ScoreOf);
    SortedApart(was, country, h, base);
    ghost var before := sites[..];
    AssignKinds(sites, ranked, m);
    assert KindsFollow(sites[..], ranked, m);
    forall i | 0 <= i < sites.Length
      ensures sites[i] == before[i] || (was[i].country == country && exists k :: sites[i] == before[i].(kind := k))
    {
      if it :| it in ranked && it.pos == i {
        var r :| 0 <= r < |ranked| && ranked[r] == it;
        assert sites[ranked[r].pos] == before[i].(kind := Some(KindAt(r, m)));
      }
    }
    StillOnlyKinds(was, before, sites[..], country);
  }

  lemma StillOnlyKinds(was: seq<Site>, before: seq<Site>, now: seq<Site>, country: string)
    requires OnlyKindsDiffer(was, before, country) && |now| == |was|
    requires forall i :: 0 <= i < |was| ==>
      now[i] == before[i] || (was[i].country == country && exists k :: now[i] == before[i].(kind := k))
    ensures OnlyKindsDiffer(was, now, country)
  {
  }

  /** After the first pass only sources have changed. */
  lemma OnlySources(was: seq<Site>, now: seq<Site>, country: string)
    requires |now| == |was| && forall i :: 0 <= i < |was| ==>
      now[i] == if was[i].country == country
                then was[i].(source := Some(if was[i].kind.Some? then PaperSection else Inferred)) else was[i]
    ensures OnlyKindsDiffer(was, now, country) && SectionsKept(was, now, country)
  {
  }

  /** Relabelling the undecided sites keeps the sections. */
  lemma SectionsStay(was: seq<Site>, before: seq<Site>, now: seq<Site>, country: string, h: Hints, base: seq<Item>)
    requires |now| == |before| == |was| && SectionsKept(was, before, country)
    requires forall it :: it in base ==> InGroup(was, country, h, it) && was[it.pos].kind.None?
    requires forall i :: 0 <= i < |was| && (forall it :: it in base ==> it.pos != i) ==> now[i] == before[i]
    ensures SectionsKept(was, now, country)
  {
    hide ItemAt;
  }

  lemma NothingToFollow(now: seq<Site>, m: int)
    ensures KindsFollow(now, SortDesc<Item>([], ScoreOf), m)
  {
  }

  /** The turn of one country, put together. */
  lemma TurnDone(was: seq<Site>, now: seq<Site>, q: Quota, h: Hints)
    requires OnlyKindsDiffer(was, now, q.country)
    requires if Keepable(was, q, h) then
        KindsFollow(now, SortDesc(Undecided(was, q.country, h), ScoreOf), q.coastal - CoastalCount(was, q.country))
        && SectionsKept(was, now, q.country)
      else KindsFollow(now, SortDesc(Items(was, q.country, h), ScoreOf), q.coastal)
    ensures Labelled(was, now, q, h)
    ensures forall i :: 0 <= i < |was| && was[i].country != q.country ==> now[i] == was[i]
  {
    hide Keepable, KindsFollow, SectionsKept, SortDesc, Undecided, Items, CoastalCount, SourcesTold;
  }

  lemma OnlyKindsSame(was: seq<Site>, now: seq<Site>, country: string)
    requires OnlyKindsDiffer(was, now, country)
    ensures SameSites(was, now)
  {
  }

  /** The turn of one country. */
  method LabelCountry(sites: array<Site>, q: Quota, h: Hints)
    modifies sites
    ensures Labelled(old(sites[..]), sites[..], q, h) && LabelsAre(old(sites[..]), sites[..], q, h)
    ensures forall i :: 0 <= i < sites.Length && old(sites[i].country) != q.country ==> sites[i] == old(sites[i])
  {
    hide *;
    ghost var was := sites[..];
    var group := MarkSources(sites, q.country, h);
    GroupParts(was, q.country, h);
    OnlySources(was, sites[..], q.country);
    OnlyKindsSame(was, sites[..], q.country);
    var undecided := Filter(group, IsUndecided);
    UndecidedIs(was, q.country, h);
    var decidedCoastal := CountCoastal(sites, group);
    CountOfGroup(was, sites[..], q.country, h);
    assert decidedCoastal == CoastalCount(was, q.country) by { SameKindsSameCount(was, sites[..], q.country, |was|); }
    var need := q.coastal - decidedCoastal;
    ghost var marked := sites[..];
    if undecided != [] {
      Relabel(sites, undecided, need, was, q.country, h);
    } else {
      NothingToFollow(sites[..], need);
    }
    SectionsStay(was, marked, sites[..], q.country, h, undecided);
    OnlyKindsSame(was, sites[..], q.country);
    FirstCount(was, sites[..], q, h);
    CountOfGroup(was, sites[..], q.country, h);
    var coastalNow := CountCoastal(sites, group);
    if coastalNow != q.coastal {
      Relabel(sites, group, q.coastal, was, q.country, h);
    }
    TurnDone(was, sites[..], q, h);
    LabelledAre(was, sites[..], q, h);
  }

  lemma UndecidedIs(was: seq<Site>, country: string, h: Hints)
    ensures Undecided(was, country, h) == Filter(Items(was, country, h), IsUndecided)
  {
  }

  lemma CountOfGroup(was: seq<Site>, now: seq<Site>, country: string, h: Hints)
    requires SameSites(was, now)
    ensures |Filter(Items(was, country, h), CoastalIn(now))| == CoastalCount(now, country)
  {
    hide Filter;
    CountIs(was, now, country, h, |was|);
  }

  lemma {:induction false} SameKindsSameCount(was: seq<Site>, now: seq<Site>, country: string, k: nat)
    requires |now| == |was| && k <= |was|
    requires forall i :: 0 <= i < |was| ==> now[i].country == was[i].country && now[i].kind == was[i].kind
    ensures CoastalUpTo(now, country, k) == CoastalUpTo(was, country, k)
    ensures k == |was| ==> CoastalCount(now, country) == CoastalCount(was, country)
  {
    if k > 0 {
      SameKindsSameCount(was, now, country, k - 1);
    }
  }

  /** Countries that are not in the table. */
  predicate InTable(table: seq<Quota>, country: string) {
    exists k :: 0 <= k < |table| && table[k].country == country
  }

  /** `infer_wetland_type`: every country of the table is labelled, and the
      sites of other countries are untouched. */
  method InferWetlandType(sites: array<Site>, table: seq<Quota>, h: Hints)
    requires forall i, j :: 0 <= i < j < |table| ==> table[i].country != table[j].country
    modifies sites
    ensures forall k :: 0 <= k < |table| ==>
      Labelled(old(sites[..]), sites[..], table[k], h) && LabelsAre(old(sites[..]), sites[..], table[k], h)
    ensures forall i :: 0 <= i < sites.Length && !InTable(table, old(sites[i].country)) ==> sites[i] == old(sites[i])
  {
    hide Labelled, LabelsAre;
    ghost var was := sites[..];
    for k := 0 to |table|
      invariant SameSites(was, sites[..])
      invariant forall j :: 0 <= j < k ==> Labelled(was, sites[..], table[j], h)
      invariant forall i :: 0 <= i < sites.Length && (forall j :: 0 <= j < k ==> table[j].country != was[i].country) ==>
        sites[i] == was[i]
    {
      ghost var before := sites[..];
      LabelCountry(sites, table[k], h);
      LabelledSame(before, sites[..], table[k], h);
      assert forall i :: 0 <= i < |was| && was[i].country == table[k].country ==> before[i] == was[i];
      LabelsCarry(before, sites[..], was, sites[..], table[k], h);
      forall j | 0 <= j < k ensures Labelled(was, sites[..], table[j], h) {
        LabelsCarry(was, before, was, sites[..], table[j], h);
      }
    }
    forall k | 0 <= k < |table| ensures LabelsAre(was, sites[..], table[k], h) {
      LabelledAre(was, sites[..], table[k], h);
    }
  }

  lemma LabelledSame(was: seq<Site>, now: seq<Site>, q: Quota, h: Hints)
    requires Labelled(was, now, q, h)
    ensures SameSites(was, now)
  {
  }

  /** Two states that agree on the sites of the country. */
  ghost predicate AgreeOn(a: seq<Site>, b: seq<Site>, country: string, was: seq<Site>) {
    |a| == |was| && |b| == |was| && forall i :: 0 <= i < |was| && was[i].country == country ==> b[i] == a[i]
  }

  /** The ranking depends on the country's own sites only. */
  lemma SameRanking(was: seq<Site>, was2: seq<Site>, q: Quota, h: Hints)
    requires SameSites(was, was2) && AgreeOn(was, was2, q.country, was)
    ensures Keepable(was2, q, h) == Keepable(was, q, h) && Take(was2, q, h) == Take(was, q, h)
    ensures Ranking(was2, q, h) == Ranking(was, q, h)
  {
    hide Filter, SortDesc, ItemsUpTo, CoastalUpTo;
    SameItems(was, was2, q.country, h, |was|);
    SameCountUpTo(was, was2, q.country, |was|);
  }

  /** Labels along the ranking of a country are labels of its sites. */
  lemma SameKinds(was: seq<Site>, now: seq<Site>, now2: seq<Site>, q: Quota, h: Hints)
    requires AgreeOn(now, now2, q.country, was) && KindsFollow(now, Ranking(was, q, h), Take(was, q, h))
    ensures KindsFollow(now2, Ranking(was, q, h), Take(was, q, h))
  {
    RankingIs(was, q, h);
    hide Ranking, Take, KindAt, ItemAt, Keepable, Ranked;
    var ranking := Ranking(was, q, h);
    forall r | 0 <= r < |ranking|
      ensures ranking[r].pos < |now2| && now2[ranking[r].pos].kind == Some(KindAt(r, Take(was, q, h)))
    {
      assert ranking[r] in ranking;
    }
  }

  /** The labelling of a country depends on its own sites only. */
  lemma LabelsCarry(was: seq<Site>, now: seq<Site>, was2: seq<Site>, now2: seq<Site>, q: Quota, h: Hints)
    requires Labelled(was, now, q, h) && SameSites(was, was2) && SameSites(was2, now2)
    requires AgreeOn(was, was2, q.country, was) && AgreeOn(now, now2, q.country, was)
    ensures Labelled(was2, now2, q, h)
  {
    hide Ranking, Take, Keepable, KindsFollow;
    SameRanking(was, was2, q, h);
    SameKinds(was, now, now2, q, h);
  }

  lemma {:induction false} SameItems(was: seq<Site>, was2: seq<Site>, country: string, h: Hints, k: nat)
    requires SameSites(was, was2) && k <= |was|
    requires forall i :: 0 <= i < |was| && was[i].country == country ==> was2[i] == was[i]
    ensures ItemsUpTo(was2, country, h, k) == ItemsUpTo(was, country, h, k)
  {
    if k > 0 {
      SameItems(was, was2, country, h, k - 1);
    }
  }

  lemma {:induction false} SameCountUpTo(was: seq<Site>, was2: seq<Site>, country: string, k: nat)
    requires SameSites(was, was2) && k <= |was|
    requires forall i :: 0 <= i < |was| && was[i].country == country ==> was2[i] == was[i]
    ensures CoastalUpTo(was2, country, k) == CoastalUpTo(was, country, k)
  {
    if k > 0 {
      SameCountUpTo(was, was2, country, k - 1);
    }
  }
}
