// JSON documents as values, and the removal of nulls that cards go through
// when they are stored (src/geonexus/geocard/model.py).
module Json {
  datatype Json =
    | Null
    | Bool(flag: bool)
    | Num(number: real)
    | Str(text: string)
    | Arr(items: seq<Json>)
    | Obj(entries: seq<Entry>)

  /** One entry of a dictionary, whose entries keep their order. */
  datatype Entry = Entry(key: string, value: Json)

  /** `_strip_none_values`: entries and items that are null are dropped, at
      every depth. */
  function Strip(j: Json): Json {
    match j
    case Arr(items) => Arr(StripItems(items))
    case Obj(entries) => Obj(StripEntries(entries))
    case _ => j
  }

  function StripItems(items: seq<Json>): seq<Json> {
    if items == [] then []
    else (if items[0].Null? then [] else [Strip(items[0])]) + StripItems(items[1..])
  }

  function StripEntries(entries: seq<Entry>): seq<Entry> {
    if entries == [] then []
    else
      (if entries[0].value.Null? then [] else [Entry(entries[0].key, Strip(entries[0].value))])
      + StripEntries(entries[1..])
  }

  /** An entry anywhere in a dictionary is dropped if it is null, and otherwise
      stays where it is with its own value stripped. */
  lemma {:induction false} StripEntryAnywhere(before: seq<Entry>, e: Entry, after: seq<Entry>)
    ensures StripEntries(before + [e] + after)
         == StripEntries(before) + (if e.value.Null? then [] else [Entry(e.key, Strip(e.value))]) + StripEntries(after)
  {
    var all := before + [e] + after;
    if before == [] {
      assert all[0] == e && all[1..] == after;
    } else {
      assert all[0] == before[0] && all[1..] == before[1..] + [e] + after;
      StripEntryAnywhere(before[1..], e, after);
    }
  }

  /** The same of an item of a list. */
  lemma {:induction false} StripItemAnywhere(before: seq<Json>, x: Json, after: seq<Json>)
    ensures StripItems(before + [x] + after)
         == StripItems(before) + (if x.Null? then [] else [Strip(x)]) + StripItems(after)
  {
    var all := before + [x] + after;
    if before == [] {
      assert all[0] == x && all[1..] == after;
    } else {
      assert all[0] == before[0] && all[1..] == before[1..] + [x] + after;
      StripItemAnywhere(before[1..], x, after);
    }
  }

  /** No null stands in the document, except that it may be one itself. */
  predicate Clean(j: Json) {
    match j
    case Arr(items) => forall x :: x in items ==> !x.Null? && Clean(x)
    case Obj(entries) => CleanEntries(entries)
    case _ => true
  }

  predicate CleanEntries(entries: seq<Entry>) {
    forall e :: e in entries ==> !e.value.Null? && Clean(e.value)
  }

  /** Stripping leaves a document as it is exactly if no null stands in it. */
  lemma {:induction false} StripKeepsExactly(j: Json)
    ensures Strip(j) == j <==> Clean(j)
  {
    match j
    case Arr(items) => StripItemsKeepsExactly(items);
    case Obj(entries) => StripEntriesKeepsExactly(entries);
    case _ =>
  }

  lemma {:induction false} StripItemsKeepsExactly(items: seq<Json>)
    ensures |StripItems(items)| <= |items|
    ensures StripItems(items) == items <==> forall x :: x in items ==> !x.Null? && Clean(x)
  {
    if items != [] {
      StripKeepsExactly(items[0]);
      StripItemsKeepsExactly(items[1..]);
      assert items == [items[0]] + items[1..];
      if StripItems(items) == items {
        assert StripItems(items)[0] == items[0] && StripItems(items)[1..] == items[1..];
      }
    }
  }

  lemma {:induction false} StripEntriesKeepsExactly(entries: seq<Entry>)
    ensures |StripEntries(entries)| <= |entries|
    ensures StripEntries(entries) == entries <==> CleanEntries(entries)
  {
    if entries != [] {
      StripKeepsExactly(entries[0].value);
      StripEntriesKeepsExactly(entries[1..]);
      assert entries == [entries[0]] + entries[1..];
      if StripEntries(entries) == entries {
        assert StripEntries(entries)[0] == entries[0] && StripEntries(entries)[1..] == entries[1..];
      }
    }
  }

  /** What has been stripped has no null left. */
  lemma {:induction false} StripCleans(j: Json)
    ensures Clean(Strip(j)) && (Strip(j).Null? <==> j.Null?)
  {
    match j
    case Arr(items) => StripItemsCleans(items);
    case Obj(entries) => StripEntriesCleans(entries);
    case _ =>
  }

  lemma {:induction false} StripItemsCleans(items: seq<Json>)
    ensures forall x :: x in StripItems(items) ==> !x.Null? && Clean(x)
  {
    if items != [] {
      StripCleans(items[0]);
      StripItemsCleans(items[1..]);
    }
  }

  lemma {:induction false} StripEntriesCleans(entries: seq<Entry>)
    ensures CleanEntries(StripEntries(entries))
  {
    if entries != [] {
      StripCleans(entries[0].value);
      StripEntriesCleans(entries[1..]);
    }
  }

  /** The numbers of a list of numbers. */
  function Numbers(xs: seq<real>): (items: seq<Json>)
    ensures |items| == |xs| && forall i :: 0 <= i < |xs| ==> items[i] == Num(xs[i])
  {
    if xs == [] then [] else [Num(xs[0])] + Numbers(xs[1..])
  }

  predicate AllNumbers(items: seq<Json>) {
    forall x :: x in items ==> x.Num?
  }

  function ReadNumbers(items: seq<Json>): (xs: seq<real>)
    requires AllNumbers(items)
    ensures |xs| == |items| && forall i :: 0 <= i < |xs| ==> items[i] == Num(xs[i])
  {
    if items == [] then [] else [items[0].number] + ReadNumbers(items[1..])
  }

  lemma NumbersBack(xs: seq<real>)
    ensures AllNumbers(Numbers(xs)) && ReadNumbers(Numbers(xs)) == xs
  {
    assert forall i :: 0 <= i < |xs| ==> Numbers(xs)[i] == Num(ReadNumbers(Numbers(xs))[i]);
  }

  lemma NumbersAgain(items: seq<Json>)
    requires AllNumbers(items)
    ensures Numbers(ReadNumbers(items)) == items
  {
  }

  /** `dict.get`: the value of the first entry with the key, or null. */
  function Get(entries: seq<Entry>, key: string): Json {
    if entries == [] then Null
    else if entries[0].key == key then entries[0].value
    else Get(entries[1..], key)
  }
}
