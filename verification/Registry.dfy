// The contract registry: an in-memory map with a SQLite mirror, and semantic
// top-k search (src/geonexus/gaag/registry.py).
module Registry {
  import opened Wrappers
  import opened Filters
  import opened StableSort
  import Embed
  import Validator
  import opened Json

  /** A registered contract. The card is given by its fields, unset ones left
      out; nulls can still stand inside free-form values of a field. */
  datatype Contract = Contract(id: string, assetType: string, card: seq<Entry>, meta: seq<Entry>,
                               embedding: Option<seq<real>>, provenance: string, registeredAt: string)

  /** A table row. The JSON columns hold documents; an SQL null is `None`. */
  datatype Row = Row(id: string, assetType: string, card: Json, meta: Json, embedding: Option<Json>,
                     provenance: string, registeredAt: string)

  /** The row that `_persist_one` writes. */
  function Encode(c: Contract): Row {
    Row(c.id, c.assetType, Obj(StripEntries(c.card)), Obj(c.meta),
        Some(if c.embedding.None? then Null else Arr(Numbers(c.embedding.value))),
        c.provenance, c.registeredAt)
  }

  /** What each column of the row of a contract holds. */
  ghost predicate RowOf(row: Row, c: Contract) {
    && row.id == c.id && row.assetType == c.assetType && row.provenance == c.provenance
    && row.registeredAt == c.registeredAt
    && row.card == Strip(Obj(c.card)) && row.meta == Obj(c.meta)
    && match c.embedding
       case None => row.embedding == Some(Null)
       case Some(xs) =>
         && row.embedding.Some? && row.embedding.value.Arr? && |row.embedding.value.items| == |xs|
         && forall i :: 0 <= i < |xs| ==> row.embedding.value.items[i] == Num(xs[i])
  }

  lemma EncodeIsRow(c: Contract)
    ensures RowOf(Encode(c), c)
  {
  }

  /** The row can be read as a contract. */
  predicate Readable(row: Row) {
    && row.card.Obj? && row.meta.Obj?
    && (row.embedding.Some? && !row.embedding.value.Null? ==>
          row.embedding.value.Arr? && AllNumbers(row.embedding.value.items))
  }

  /** The contract that `_load_from_sqlite` builds from a row. */
  function Decode(row: Row): Contract
    requires Readable(row)
  {
    Contract(row.id, row.assetType, row.card.entries, row.meta.entries,
             if row.embedding.None? || row.embedding.value.Null? then None
             else Some(ReadNumbers(row.embedding.value.items)),
             row.provenance, row.registeredAt)
  }

  /** The row was written by a registry: a readable row whose card has no null
      and whose embedding column is set. */
  predicate Written(row: Row) {
    Readable(row) && CleanEntries(row.card.entries) && row.embedding.Some?
  }

  /** What is stored of a contract. */
  function Stored(c: Contract): Contract {
    c.(card := StripEntries(c.card))
  }

  /** A contract is read back as it was stored, and comes back unchanged
      exactly if no null stands in its card. */
  lemma RowBack(c: Contract)
    ensures Written(Encode(c)) && Decode(Encode(c)) == Stored(c)
    ensures Stored(c) == c <==> CleanEntries(c.card)
    ensures Stored(Stored(c)) == Stored(c)
  {
    if c.embedding.Some? {
      NumbersBack(c.embedding.value);
    }
    StripEntriesCleans(c.card);
    StripEntriesKeepsExactly(c.card);
    StripEntriesKeepsExactly(StripEntries(c.card));
  }

  /** The rows a registry writes are exactly those that reading and writing
      again leaves as they are. */
  lemma WrittenExactly(row: Row)
    ensures Written(row) <==> Readable(row) && Encode(Decode(row)) == row
    ensures Written(row) <==> exists c :: Encode(c) == row
  {
    if Readable(row) {
      StripEntriesKeepsExactly(row.card.entries);
      if row.embedding.Some? && row.embedding.value.Arr? {
        NumbersAgain(row.embedding.value.items);
      }
      if Encode(Decode(row)) == row {
        RowBack(Decode(row));
      }
    }
    forall c | Encode(c) == row ensures Written(row) {
      RowBack(c);
    }
  }

  function IdOf(c: Contract): string {
    c.id
  }

  function Called(id: string): Contract -> bool {
    (c: Contract) => c.id == id
  }

  function NotCalled(id: string): Contract -> bool {
    (c: Contract) => c.id != id
  }

  ghost predicate Distinct(cs: seq<Contract>) {
    forall i, j :: 0 <= i < j < |cs| ==> cs[i].id != cs[j].id
  }

  /** The dictionary a list of contracts stands for. */
  function Contents(cs: seq<Contract>): (m: map<string, Contract>)
    ensures forall id :: id in m ==> m[id].id == id && m[id] in cs
    ensures forall c :: c in cs ==> c.id in m
    ensures Distinct(cs) ==> forall c :: c in cs ==> m[c.id] == c
  {
    if cs == [] then map[]
    else
      var k := |cs| - 1;
      assert cs == cs[..k] + [cs[k]];
      Contents(cs[..k])[cs[k].id := cs[k]]
  }

  /** The row reads as the contract, or as what is stored of it. */
  ghost predicate Reads(row: Row, c: Contract) {
    row.id == c.id && Readable(row) && (Decode(row) == c || Decode(row) == Stored(c))
  }

  /** The table holds exactly one row for each of the contracts. */
  ghost predicate Mirrors(table: map<string, Row>, cs: seq<Contract>) {
    && (forall id :: id in table <==> id in Contents(cs))
    && (forall c :: c in cs ==> c.id in table && Reads(table[c.id], c))
  }

  lemma {:induction false} FilterDistinct(cs: seq<Contract>, p: Contract -> bool)
    requires Distinct(cs)
    ensures Distinct(Filter(cs, p))
  {
    if cs != [] {
      assert forall j :: 0 <= j < |cs| - 1 ==> cs[1..][j] == cs[j + 1];
      FilterDistinct(cs[1..], p);
      FilterMember(cs[1..], p);
      var rest := Filter(cs[1..], p);
      forall j | 0 <= j < |rest| ensures rest[j].id != cs[0].id {
        assert rest[j] in rest;
        var k :| 0 <= k < |cs[1..]| && cs[1..][k] == rest[j];
        assert cs[k + 1] == rest[j];
      }
      FilterHead(cs, p);
    }
  }

  lemma RemoveKeeps(cs: seq<Contract>, id: string)
    requires Distinct(cs)
    ensures Distinct(Filter(cs, NotCalled(id)))
    ensures Contents(Filter(cs, NotCalled(id))) == Contents(cs) - {id}
    ensures forall c :: c in Filter(cs, NotCalled(id)) <==> c in cs && c.id != id
  {
    hide Contents, Filter, Distinct;
    FilterDistinct(cs, NotCalled(id));
    FilterMember(cs, NotCalled(id));
  }

  lemma AddKeeps(cs: seq<Contract>, c: Contract)
    requires Distinct(cs) && c.id !in Contents(cs)
    ensures Distinct(cs + [c]) && Contents(cs + [c]) == Contents(cs)[c.id := c]
  {
    assert (cs + [c])[..|cs|] == cs;
    forall j | 0 <= j < |cs| ensures cs[j].id != c.id {
      assert cs[j] in cs;
    }
  }

  lemma AddMirrors(table: map<string, Row>, cs: seq<Contract>, c: Contract)
    requires Distinct(cs) && c.id !in Contents(cs) && Mirrors(table, cs)
    ensures Mirrors(table[c.id := Encode(c)], cs + [c])
  {
    hide Contents, Distinct;
    AddKeeps(cs, c);
    var next := table[c.id := Encode(c)];
    RowBack(c);
    hide Readable, Decode, Stored;
    forall d | d in cs + [c] ensures d.id in next && Reads(next[d.id], d) {
      if d in cs {
        assert d.id in Contents(cs) && d.id != c.id;
      } else {
        assert d == c;
      }
    }
    assert forall id :: id in next <==> id in Contents(cs + [c]);
  }

  /** Every row of the table stands under its key and can be read. */
  ghost predicate AllReadable(table: map<string, Row>) {
    forall id :: id in table ==> table[id].id == id && Readable(table[id])
  }

  /** Every row of the table was written by a registry. */
  ghost predicate AllWritten(table: map<string, Row>) {
    forall id :: id in table ==> Written(table[id])
  }

  /** The dictionary that is loaded from a table. */
  function Loaded(table: map<string, Row>): map<string, Contract>
    requires AllReadable(table)
  {
    map id | id in table :: Decode(table[id])
  }

  function StoredAll(m: map<string, Contract>): map<string, Contract> {
    map id | id in m :: Stored(m[id])
  }

  /** The two dictionaries differ at most by what storing drops. */
  ghost predicate SameUpToNulls(a: map<string, Contract>, b: map<string, Contract>) {
    a.Keys == b.Keys && forall id :: id in a ==> a[id] == b[id] || a[id] == Stored(b[id])
  }

  lemma IdBack(row: Row)
    requires Readable(row)
    ensures Decode(row).id == row.id
  {
  }

  /** A table that mirrors the contracts loads as the contracts, up to what
      storing drops; if a registry wrote it, exactly as what is stored of them. */
  lemma MirrorBack(table: map<string, Row>, cs: seq<Contract>)
    requires Mirrors(table, cs)
    ensures AllReadable(table) && SameUpToNulls(Loaded(table), Contents(cs))
    ensures AllWritten(table) ==> Loaded(table) == StoredAll(Contents(cs))
  {
    hide Contents, Decode, Written, Stored, Readable;
    forall id | id in table
      ensures table[id].id == id && Reads(table[id], Contents(cs)[id])
      ensures Written(table[id]) ==> Decode(table[id]) == Stored(Contents(cs)[id])
    {
      var c := Contents(cs)[id];
      assert c in cs && c.id == id;
      if Written(table[id]) {
        WrittenReads(table[id], c);
      }
    }
  }

  lemma WrittenReads(row: Row, c: Contract)
    requires Written(row) && Reads(row, c)
    ensures Decode(row) == Stored(c)
  {
    WrittenExactly(row);
    RowBack(Decode(row));
    RowBack(c);
    hide Encode, Decode, Stored, Written;
  }

  lemma CleanComesBack(m: map<string, Contract>)
    ensures StoredAll(m) == m <==> forall id :: id in m ==> CleanEntries(m[id].card)
  {
    hide Stored, CleanEntries;
    forall id | id in m ensures Stored(m[id]) == m[id] <==> CleanEntries(m[id].card) {
      RowBack(m[id]);
    }
    if StoredAll(m) == m {
      forall id | id in m ensures Stored(m[id]) == m[id] {
        assert StoredAll(m)[id] == m[id];
      }
    }
  }

  /** A card that offers null among the values of a parameter does not come
      back: the reopened registry holds another contract. */
  lemma NullIsLost()
    ensures
      var spec := Obj([Entry("name", Str("year")), Entry("enum", Arr([Null, Num(2020.0)]))]);
      var c := Contract("a", "raster", [Entry("params", Obj([Entry("params", Arr([spec]))]))], [], None, "", "");
      !CleanEntries(c.card) && Decode(Encode(c)) != c
  {
    hide Encode, Decode, Stored, Written, StripEntries;
    var spec := Obj([Entry("name", Str("year")), Entry("enum", Arr([Null, Num(2020.0)]))]);
    var params := Arr([spec]);
    var c := Contract("a", "raster", [Entry("params", Obj([Entry("params", params)]))], [], None, "", "");
    RowBack(c);
    assert spec.entries[1] in spec.entries && Null in spec.entries[1].value.items;
    assert !Clean(spec.entries[1].value) && !Clean(spec);
    assert spec in params.items && !Clean(params);
    assert Entry("params", params) in c.card[0].value.entries;
    assert c.card[0] in c.card && !Clean(c.card[0].value);
  }

  // ---------------------------------------------------------------------
  // Search
  // ---------------------------------------------------------------------

  datatype Hit = Hit(contract: Contract, score: real)

  function ScoreOf(h: Hit): real {
    h.score
  }

  /** A contract without an embedding scores zero. */
  function Score(c: Contract, q: seq<real>, root: real -> real): real {
    if c.embedding.None? || c.embedding.value == [] then 0.0 else Embed.Cosine(q, c.embedding.value, root)
  }

  /** The box in the scanned metadata, if there is one. */
  function BoxOf(c: Contract): Option<seq<real>> {
    var box := Get(c.meta, "bbox");
    if box.Arr? && AllNumbers(box.items) then Some(ReadNumbers(box.items)) else None
  }

  datatype Verdict = Kept | Excluded | Raises

  /** The box test of the search, which compares from left to right and raises
      where the requested box ends too soon. Without a box of at least four
      values, or without a requested one, nothing is ruled out. */
  function Against(c: Contract, bbox: seq<real>): Verdict {
    if bbox == [] || BoxOf(c).None? || |BoxOf(c).value| < 4 then Kept
    else
      var box := BoxOf(c).value;
      if box[2] < bbox[0] then Excluded
      else if |bbox| < 3 then Raises
      else if box[0] > bbox[2] || box[3] < bbox[1] then Excluded
      else if |bbox| < 4 then Raises
      else if box[1] > bbox[3] then Excluded
      else Kept
  }

  /** With a requested box of at least four values the test never raises, and
      rules out exactly the boxes that do not overlap; a shorter one rules out
      or raises for every box. */
  lemma AgainstMeans(c: Contract, bbox: seq<real>)
    requires bbox != [] && BoxOf(c).Some? && |BoxOf(c).value| >= 4
    ensures |bbox| >= 4 ==> (Against(c, bbox) == Kept <==> Validator.Overlap(BoxOf(c).value, bbox)) && !Against(c, bbox).Raises?
    ensures |bbox| < 4 ==> Against(c, bbox) != Kept
  {
    hide BoxOf;
  }

  function Survives(bbox: seq<real>): Contract -> bool {
    (c: Contract) => Against(c, bbox) == Kept
  }

  /** Some contract makes the test raise. */
  ghost predicate SomeRaises(cs: seq<Contract>, bbox: seq<real>) {
    exists c :: c in cs && Against(c, bbox).Raises?
  }

  function Scored(cs: seq<Contract>, q: seq<real>, root: real -> real): seq<Hit> {
    Map(cs, ToHit(q, root))
  }

  function ToHit(q: seq<real>, root: real -> real): Contract -> Hit {
    (c: Contract) => Hit(c, Score(c, q, root))
  }

  lemma ScoredNext(cs: seq<Contract>, c: Contract, q: seq<real>, root: real -> real)
    ensures Scored(cs + [c], q, root) == Scored(cs, q, root) + [Hit(c, Score(c, q, root))]
  {
    hide Score;
    MapConcat(cs, [c], ToHit(q, root));
    assert Map([c], ToHit(q, root)) == [Hit(c, Score(c, q, root))];
  }

  /** `hits` are the first `k` of `all` by falling score: none is missing that
      scores more than one that is there, and ties keep their order. */
  ghost predicate BestOf(hits: seq<Hit>, all: seq<Hit>, k: nat) {
    exists rest: seq<Hit> ::
      && Splits(hits, rest, all, k)
  }

  ghost predicate Splits(hits: seq<Hit>, rest: seq<Hit>, all: seq<Hit>, k: nat) {
    && |hits| == (if k < |all| then k else |all|)
    && multiset(hits) + multiset(rest) == multiset(all)
    && Descending(hits + rest, ScoreOf)
    && (forall v: real :: WithKey(hits + rest, ScoreOf, v) == WithKey(all, ScoreOf, v))
  }

  lemma BestFirst(all: seq<Hit>, k: nat)
    ensures var sorted := SortDesc(all, ScoreOf);
      |sorted| == |all| && BestOf(if k < |sorted| then sorted[..k] else sorted, all, k)
  {
    hide SortDesc, Descending, WithKey;
    var sorted := SortDesc(all, ScoreOf);
    SortSorts(all, ScoreOf);
    var n := if k < |sorted| then k else |sorted|;
    assert sorted == sorted[..n] + sorted[n..];
    forall v: real ensures WithKey(sorted, ScoreOf, v) == WithKey(all, ScoreOf, v) {
      SortStable(all, ScoreOf, v);
    }
    assert sorted[..|sorted|] == sorted;
    assert Splits(sorted[..n], sorted[n..], all, k);
  }

  /** Nothing better is left out, and the hits come by falling score. */
  lemma NothingBetterLeft(hits: seq<Hit>, all: seq<Hit>, k: nat)
    requires BestOf(hits, all, k)
    ensures Descending(hits, ScoreOf) && forall h :: h in hits ==> h in all
    ensures forall h, g :: h in all && h !in hits && g in hits ==> h.score <= g.score
  {
    hide WithKey;
    var rest :| Splits(hits, rest, all, k);
    var sorted := hits + rest;
    forall h | h in hits ensures h in all {
      assert h in multiset(hits) + multiset(rest);
    }
    forall i, j | 0 <= i < j < |hits| ensures ScoreOf(hits[i]) >= ScoreOf(hits[j]) {
      assert sorted[i] == hits[i] && sorted[j] == hits[j];
    }
    forall h, g | h in all && h !in hits && g in hits ensures h.score <= g.score {
      assert h in multiset(all);
      assert h in rest;
      var i :| 0 <= i < |hits| && hits[i] == g;
      var j :| 0 <= j < |rest| && rest[j] == h;
      assert sorted[i] == g && sorted[|hits| + j] == h;
      assert ScoreOf(g) >= ScoreOf(h);
    }
  }

  /** The answer to a search is determined. */
  lemma BestUnique(a: seq<Hit>, b: seq<Hit>, all: seq<Hit>, k: nat)
    requires BestOf(a, all, k) && BestOf(b, all, k)
    ensures a == b
  {
    hide WithKey, Descending;
    var x :| Splits(a, x, all, k);
    var y :| Splits(b, y, all, k);
    forall v: real ensures WithKey(a + x, ScoreOf, v) == WithKey(b + y, ScoreOf, v) {
      assert WithKey(a + x, ScoreOf, v) == WithKey(all, ScoreOf, v);
    }
    SortUnique(a + x, b + y, ScoreOf);
    assert a == (a + x)[..|a|] && b == (b + y)[..|b|];
  }

  // ---------------------------------------------------------------------
  // The answer to a search, in terms of the contracts alone
  // ---------------------------------------------------------------------

  /** The box of a contract, where the search looks at it. */
  predicate HasBox(c: Contract, bbox: seq<real>) {
    bbox != [] && BoxOf(c).Some? && |BoxOf(c).value| >= 4
  }

  /** The contract is not ruled out: no box is asked for, or it has none of at
      least four values, or the two boxes overlap. */
  predicate Admitted(c: Contract, bbox: seq<real>) {
    HasBox(c, bbox) ==>
      && |bbox| >= 4
      && bbox[0] <= BoxOf(c).value[2] && BoxOf(c).value[0] <= bbox[2]
      && bbox[1] <= BoxOf(c).value[3] && BoxOf(c).value[1] <= bbox[3]
  }

  /** The requested box ends before the test of this contract does. */
  predicate TooShortFor(c: Contract, bbox: seq<real>) {
    && HasBox(c, bbox) && |bbox| < 4
    && bbox[0] <= BoxOf(c).value[2]
    && (|bbox| == 3 ==> BoxOf(c).value[0] <= bbox[2] && bbox[1] <= BoxOf(c).value[3])
  }

  lemma AgainstExactly(c: Contract, bbox: seq<real>)
    ensures Against(c, bbox) == Kept <==> Admitted(c, bbox)
    ensures Against(c, bbox).Raises? <==> TooShortFor(c, bbox)
  {
    hide BoxOf;
  }

  /** `g` is listed before `h`: it scores more, or as much and its contract stands
      before the other's in the table. */
  predicate Ahead(cs: seq<Contract>, g: Hit, h: Hit) {
    g.score > h.score || (g.score == h.score && FirstPlace(cs, Called(g.contract.id)) < FirstPlace(cs, Called(h.contract.id)))
  }

  /** The similarity to the query, or zero where there is no embedding. */
  predicate Rates(h: Hit, q: seq<real>, root: real -> real) {
    h.score == if h.contract.embedding.None? || h.contract.embedding.value == [] then 0.0
               else Embed.Cosine(q, h.contract.embedding.value, root)
  }

  /** `hits` is the answer to a search among the contracts: at most `k` admitted
      ones with their similarity, each ahead of the next, and an admitted contract
      that is left out has `k` hits ahead of it. */
  ghost predicate Answers(hits: seq<Hit>, cs: seq<Contract>, bbox: seq<real>, q: seq<real>, root: real -> real, k: nat) {
    && |hits| <= k
    && (forall h :: h in hits ==> h.contract in cs && Admitted(h.contract, bbox) && Rates(h, q, root))
    && (forall i, j :: 0 <= i < j < |hits| ==> Ahead(cs, hits[i], hits[j]))
    && (forall h: Hit :: h.contract in cs && Admitted(h.contract, bbox) && Rates(h, q, root) && h !in hits ==>
          |hits| == k && forall g :: g in hits ==> Ahead(cs, g, h))
  }

  function PlaceIn(cs: seq<Contract>): Hit -> int {
    (h: Hit) => FirstPlace(cs, Called(h.contract.id))
  }

  lemma PlaceAt(cs: seq<Contract>, i: nat)
    requires Distinct(cs) && i < |cs|
    ensures FirstPlace(cs, Called(cs[i].id)) == i
  {
    hide FirstPlace;
    assert Called(cs[i].id)(cs[i]);
  }

  lemma FilterRises(cs: seq<Contract>, p: Contract -> bool, i: nat, j: nat)
    requires Distinct(cs) && i < j < |Filter(cs, p)|
    ensures FirstPlace(cs, Called(Filter(cs, p)[i].id)) < FirstPlace(cs, Called(Filter(cs, p)[j].id))
  {
    hide Filter, Distinct, FirstPlace;
    var a, b := FilterInOrder(cs, p, i, j);
    PlaceAt(cs, a);
    PlaceAt(cs, b);
  }

  lemma ScoredRises(cs: seq<Contract>, bbox: seq<real>, q: seq<real>, root: real -> real)
    requires Distinct(cs)
    ensures Rising(Scored(Filter(cs, Survives(bbox)), q, root), PlaceIn(cs))
  {
    hide Filter, Distinct, FirstPlace, Score;
    var kept := Filter(cs, Survives(bbox));
    var all := Scored(kept, q, root);
    forall i, j | 0 <= i < j < |all| ensures PlaceIn(cs)(all[i]) < PlaceIn(cs)(all[j]) {
      FilterRises(cs, Survives(bbox), i, j);
    }
  }

  /** What is scored is what is admitted. */
  lemma ScoredAre(cs: seq<Contract>, bbox: seq<real>, q: seq<real>, root: real -> real, h: Hit)
    ensures h in Scored(Filter(cs, Survives(bbox)), q, root) <==>
      h.contract in cs && Admitted(h.contract, bbox) && Rates(h, q, root)
  {
    hide Filter, Admitted, Against;
    var kept := Filter(cs, Survives(bbox));
    var all := Scored(kept, q, root);
    FilterMember(cs, Survives(bbox));
    AgainstExactly(h.contract, bbox);
    assert h.contract in kept <==> h.contract in cs && Admitted(h.contract, bbox) by {
      assert Survives(bbox)(h.contract) <==> Admitted(h.contract, bbox);
    }
    assert Rates(h, q, root) <==> ToHit(q, root)(h.contract) == h;
    if h in all {
      var i :| 0 <= i < |all| && all[i] == h;
      assert kept[i] == h.contract;
    }
    if h.contract in kept && Rates(h, q, root) {
      var i :| 0 <= i < |kept| && kept[i] == h.contract;
      assert all[i] == h;
    }
  }

  lemma SortedMembers(all: seq<Hit>, h: Hit)
    ensures h in SortDesc(all, ScoreOf) <==> h in all
  {
    hide SortDesc, Descending;
    SortSorts(all, ScoreOf);
    assert h in SortDesc(all, ScoreOf) <==> h in multiset(SortDesc(all, ScoreOf));
    assert h in all <==> h in multiset(all);
  }

  lemma BestAnswers(cs: seq<Contract>, bbox: seq<real>, q: seq<real>, root: real -> real, k: nat)
    requires Distinct(cs)
    ensures var sorted := SortDesc(Scored(Filter(cs, Survives(bbox)), q, root), ScoreOf);
      Answers(if k < |sorted| then sorted[..k] else sorted, cs, bbox, q, root, k)
  {
    hide Filter, Admitted, Rates, SortDesc, Scored, Distinct, Ahead, Descending, Rising, Ranked, FirstPlace;
    var all := Scored(Filter(cs, Survives(bbox)), q, root);
    var sorted := SortDesc(all, ScoreOf);
    ScoredRises(cs, bbox, q, root);
    SortRanks(all, ScoreOf, PlaceIn(cs));
    forall h: Hit ensures h in sorted <==> h.contract in cs && Admitted(h.contract, bbox) && Rates(h, q, root) {
      SortedMembers(all, h);
      ScoredAre(cs, bbox, q, root, h);
    }
    FirstAhead(cs, sorted, k);
  }

  /** The first `k` of a ranked list: each is ahead of the later ones, and of those
      left out, if there are any. */
  lemma FirstAhead(cs: seq<Contract>, sorted: seq<Hit>, k: nat)
    requires Ranked(sorted, ScoreOf, PlaceIn(cs))
    ensures var hits := if k < |sorted| then sorted[..k] else sorted;
      && |hits| <= k && (forall h :: h in hits ==> h in sorted)
      && (forall i, j :: 0 <= i < j < |hits| ==> Ahead(cs, hits[i], hits[j]))
      && (forall h :: h in sorted && h !in hits ==> |hits| == k && forall g :: g in hits ==> Ahead(cs, g, h))
  {
    hide Ahead, Ranked, FirstPlace;
    forall i, j | 0 <= i < j < |sorted| ensures Ahead(cs, sorted[i], sorted[j]) {
      RankedAhead(cs, sorted, i, j);
    }
    if k < |sorted| {
      var hits := sorted[..k];
      assert forall m :: 0 <= m < k ==> hits[m] == sorted[m] && hits[m] in hits;
      forall h, g | h in sorted && h !in hits && g in hits ensures Ahead(cs, g, h) {
        var i :| 0 <= i < k && hits[i] == g;
        var j :| 0 <= j < |sorted| && sorted[j] == h;
      }
    }
  }

  lemma RankedAhead(cs: seq<Contract>, sorted: seq<Hit>, i: nat, j: nat)
    requires Ranked(sorted, ScoreOf, PlaceIn(cs)) && i < j < |sorted|
    ensures Ahead(cs, sorted[i], sorted[j])
  {
    hide Ranked, FirstPlace;
    RankedAt(sorted, ScoreOf, PlaceIn(cs), i, j);
  }

  // ---------------------------------------------------------------------
  // Whole runs
  // ---------------------------------------------------------------------

  datatype Op = Add(c: Contract) | Drop(id: string)

  /** The dictionary after a run: the first registration of an id counts until
      it is removed. */
  function AfterRun(m: map<string, Contract>, ops: seq<Op>): map<string, Contract>
    decreases |ops|
  {
    if ops == [] then m
    else match ops[0]
         case Add(c) => AfterRun(if c.id in m then m else m[c.id := c], ops[1..])
         case Drop(id) => AfterRun(m - {id}, ops[1..])
  }

  datatype Failure = AlreadyRegistered(id: string) | BoxTooShort

  class GaagRegistry {
    var contracts: seq<Contract>
    var table: map<string, Row>
    const persist: bool

    ghost predicate Valid()
      reads this
    {
      Distinct(contracts) && (persist ==> Mirrors(table, contracts))
    }

    /** Opening loads every row of the table, in whatever order the rows come. */
    constructor (table: map<string, Row>, persist: bool)
      requires AllReadable(table)
      ensures Valid() && this.table == table && this.persist == persist
      ensures Contents(contracts) == if persist then Loaded(table) else map[]
    {
      this.table, this.persist, contracts := table, persist, [];
      new;
      if persist {
        Load();
      }
    }

    method Load()
      requires contracts == [] && AllReadable(table)
      modifies `contracts
      ensures Distinct(contracts) && Mirrors(table, contracts)
      ensures Contents(contracts) == Loaded(table)
    {
      hide Contents, Decode, Encode, Readable;
      var left := table.Keys;
      while left != {}
        invariant left <= table.Keys && Distinct(contracts)
        invariant forall c :: c in contracts ==> c.id in table && c.id !in left && c == Decode(table[c.id])
        invariant forall id :: id in table && id !in left ==> Decode(table[id]) in contracts
        decreases left
      {
        var id :| id in left;
        var c := Decode(table[id]);
        assert c.id == id by {
          IdBack(table[id]);
        }
        forall k | 0 <= k < |contracts| ensures contracts[k].id != id {
          assert contracts[k] in contracts;
        }
        contracts := contracts + [c];
        left := left - {id};
      }
      forall id | id in table ensures id in Contents(contracts) && Contents(contracts)[id] == Decode(table[id]) {
        IdBack(table[id]);
      }
    }

    /** A known id is refused and nothing changes; a new contract is added to
        the map and to the table. */
    method Register(c: Contract) returns (r: Result<Contract, Failure>)
      requires Valid()
      modifies `contracts, `table
      ensures Valid()
      ensures r == if c.id in old(Contents(contracts)) then Err(AlreadyRegistered(c.id)) else Ok(c)
      ensures r.Err? ==> contracts == old(contracts) && table == old(table)
      ensures r.Ok? ==> Contents(contracts) == old(Contents(contracts))[c.id := c]
      ensures r.Ok? ==> table == if persist then old(table)[c.id := Encode(c)] else old(table)
      ensures r.Ok? && persist ==> c.id in table && RowOf(table[c.id], c)
      ensures old(AllWritten(table)) ==> AllWritten(table)
    {
      hide Contents, Distinct, Mirrors;
      if c.id in Contents(contracts) {
        return Err(AlreadyRegistered(c.id));
      }
      AddKeeps(contracts, c);
      RowBack(c);
      EncodeIsRow(c);
      if persist {
        AddMirrors(table, contracts, c);
      }
      contracts := contracts + [c];
      if persist {
        table := table[c.id := Encode(c)];
      }
      r := Ok(c);
    }

    /** Removing, whether or not the id is known. */
    method Remove(id: string)
      requires Valid()
      modifies `contracts, `table
      ensures Valid() && Contents(contracts) == old(Contents(contracts)) - {id}
      ensures table == if persist then old(table) - {id} else old(table)
      ensures old(AllWritten(table)) ==> AllWritten(table)
    {
      RemoveKeeps(contracts, id);
      contracts := Filter(contracts, NotCalled(id));
      if persist {
        table := table - {id};
      }
    }

    /** Any run of registrations and removals, refused ones included: the
        dictionary is the one the run leads to, and the table its mirror. */
    method RunAll(ops: seq<Op>)
      requires Valid()
      modifies `contracts, `table
      ensures Valid() && Contents(contracts) == AfterRun(old(Contents(contracts)), ops)
      ensures persist ==> AllReadable(table) && SameUpToNulls(Loaded(table), AfterRun(old(Contents(contracts)), ops))
      ensures persist && old(AllWritten(table)) ==>
        AllWritten(table) && Loaded(table) == StoredAll(AfterRun(old(Contents(contracts)), ops))
    {
      hide Contents, Mirrors, Distinct, AllReadable, AllWritten, Loaded, StoredAll, SameUpToNulls;
      ghost var start := Contents(contracts);
      assert ops[0..] == ops;
      for i := 0 to |ops|
        invariant Valid() && AfterRun(Contents(contracts), ops[i..]) == AfterRun(start, ops)
        invariant persist && old(AllWritten(table)) ==> AllWritten(table)
      {
        assert ops[i..][0] == ops[i] && ops[i..][1..] == ops[i + 1..];
        match ops[i] {
          case Add(c) =>
            var _ := Register(c);
          case Drop(id) =>
            Remove(id);
        }
      }
      if persist {
        MirrorBack(table, contracts);
      }
    }

    /** A registry opened on this one's table holds the same contracts, up to
        what storing drops. If every row was written by a registry, they are the
        same exactly if no null stands in a card. */
    method Reopen() returns (other: GaagRegistry)
      requires Valid() && persist
      ensures fresh(other) && other.Valid() && SameUpToNulls(Contents(other.contracts), Contents(contracts))
      ensures AllWritten(table) ==> Contents(other.contracts) == StoredAll(Contents(contracts))
      ensures AllWritten(table) ==>
        (Contents(other.contracts) == Contents(contracts)
         <==> forall id :: id in Contents(contracts) ==> CleanEntries(Contents(contracts)[id].card))
    {
      hide Contents, Stored, AllWritten, AllReadable, Loaded, SameUpToNulls;
      MirrorBack(table, contracts);
      other := new GaagRegistry(table, true);
      CleanComesBack(Contents(contracts));
    }

    /** The loop of the search: the contracts that the box does not rule out,
        with their scores. */
    method ScoreContracts(bbox: seq<real>, q: seq<real>, root: real -> real) returns (r: Result<seq<Hit>, Failure>)
      ensures r.Err? <==> SomeRaises(contracts, bbox)
      ensures r.Ok? ==> r.value == Scored(Filter(contracts, Survives(bbox)), q, root)
    {
      hide *;
      var scored: seq<Hit> := [];
      NothingScored(contracts, bbox, q, root);
      for i := 0 to |contracts|
        invariant scored == Scored(Filter(contracts[..i], Survives(bbox)), q, root)
        invariant forall j :: 0 <= j < i ==> !Against(contracts[j], bbox).Raises?
      {
        SearchNext(contracts, i, bbox, q, root);
        match Against(contracts[i], bbox) {
          case Raises =>
            HasRaised(contracts, bbox, i);
            return Err(BoxTooShort);
          case Excluded =>
          case Kept =>
            scored := scored + [Hit(contracts[i], Score(contracts[i], q, root))];
        }
      }
      NoneRaised(contracts, bbox);
      assert contracts[..|contracts|] == contracts;
      return Ok(scored);
    }

    /** The best `k` of the contracts that the box does not rule out; a box of
        one to three values raises unless it rules out, or no contract has one. */
    method SearchSemantic(query: string, k: nat, bbox: seq<real>, dim: nat, digest: string -> seq<bv8>, root: real -> real)
      returns (r: Result<seq<Hit>, Failure>)
      requires Valid() && Embed.IsDigest(digest) && Embed.IsRoot(root)
      ensures r.Err? <==> exists c :: c in contracts && TooShortFor(c, bbox)
      ensures r.Ok? ==>
        var q := Embed.Embedding(Embed.Tokens(query), dim, digest, root);
        && Answers(r.value, contracts, bbox, q, root, k)
        && BestOf(r.value, Scored(Filter(contracts, Survives(bbox)), q, root), k)
    {
      var q := Embed.EmbedText(query, dim, digest, root);
      assert Distinct(contracts);
      hide *;
      var found := ScoreContracts(bbox, q, root);
      SomeTooShort(contracts, bbox);
      if found.Err? {
        return Err(found.error);
      }
      var scored := found.value;
      BestFirst(scored, k);
      BestAnswers(contracts, bbox, q, root, k);
      var sorted := SortDesc(scored, ScoreOf);
      return Ok(if k < |sorted| then sorted[..k] else sorted);
    }

    lemma SomeTooShort(cs: seq<Contract>, bbox: seq<real>)
      ensures SomeRaises(cs, bbox) <==> exists c :: c in cs && TooShortFor(c, bbox)
    {
      hide Against, TooShortFor;
      forall c ensures Against(c, bbox).Raises? <==> TooShortFor(c, bbox) {
        AgainstExactly(c, bbox);
      }
    }

    lemma NothingScored(cs: seq<Contract>, bbox: seq<real>, q: seq<real>, root: real -> real)
      ensures Scored(Filter(cs[..0], Survives(bbox)), q, root) == []
    {
      assert cs[..0] == [];
    }

    lemma SearchNext(cs: seq<Contract>, i: nat, bbox: seq<real>, q: seq<real>, root: real -> real)
      requires i < |cs|
      ensures Scored(Filter(cs[..i + 1], Survives(bbox)), q, root)
           == Scored(Filter(cs[..i], Survives(bbox)), q, root)
              + if Against(cs[i], bbox).Kept? then [Hit(cs[i], Score(cs[i], q, root))] else []
    {
      hide Filter, Scored, Score, Against;
      FilterNext(cs, i, Survives(bbox));
      if Against(cs[i], bbox).Kept? {
        ScoredNext(Filter(cs[..i], Survives(bbox)), cs[i], q, root);
        assert Survives(bbox)(cs[i]);
        assert Filter(cs[..i + 1], Survives(bbox)) == Filter(cs[..i], Survives(bbox)) + [cs[i]];
      } else {
        assert !Survives(bbox)(cs[i]);
        assert Filter(cs[..i + 1], Survives(bbox)) == Filter(cs[..i], Survives(bbox));
      }
    }

    lemma HasRaised(cs: seq<Contract>, bbox: seq<real>, i: nat)
      requires i < |cs| && Against(cs[i], bbox).Raises?
      ensures SomeRaises(cs, bbox)
    {
    }

    lemma NoneRaised(cs: seq<Contract>, bbox: seq<real>)
      requires forall j :: 0 <= j < |cs| ==> !Against(cs[j], bbox).Raises?
      ensures !SomeRaises(cs, bbox)
    {
    }
  }
}
