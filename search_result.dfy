/**
 * A view over one search response for one kind of stored record: the
 * ranked hits resolved to stored records in the search engine's order,
 * and the facet term counts resolved to labelled facets.
 *
 * The store of each kind is a sequence of records (what `klass.where`
 * reads), the string-to-integer and integer-to-string conversions of ids
 * are the parameters `toI` and `toS`, and a `Registry` maps each model
 * name to its store, in place of resolving a class from its name.
 */
module SearchResults {
  import opened Wrappers
  import opened Seqs

  /** A stored record: its id and the label it shows as a facet. */
  datatype Record = Record(id: int, labelText: string)

  /** One hit of the response's results; only its `'id'` is read. */
  datatype Hit = Hit(id: string)

  /** One `'term'`/`'count'` entry of a facet category. */
  datatype TermCount = TermCount(term: string, count: int)

  /**
   * The parts of a search response read here: the ranked hits, and the
   * facets (if the response has any) as each category's term entries.
   */
  datatype Response = Response(results: seq<Hit>, facets: Option<map<string, seq<TermCount>>>)

  datatype SearchFacet = SearchFacet(id: string, name: string, count: int)

  /** The store of each model name. */
  type Registry = map<string, seq<Record>>

  /** Resolving a model name that names no model raises. */
  datatype ResolutionError = UnknownModel(name: string)

  // ---------------------------------------------------------------------
  // The store
  // ---------------------------------------------------------------------

  /** `klass.where(id: ids)`: the stored records whose id is in `ids`, in store order. */
  function Where(table: seq<Record>, ids: set<int>): (r: seq<Record>)
    ensures |r| <= |table|
    ensures forall i :: 0 <= i < |r| ==> r[i] in table && r[i].id in ids
    ensures forall k :: 0 <= k < |table| && table[k].id in ids ==> table[k] in r
  {
    if table == [] then []
    else (if table[0].id in ids then [table[0]] else []) + Where(table[1..], ids)
  }

  /** The ids of `records`. */
  function IdsOf(records: seq<Record>): set<int> {
    set i | 0 <= i < |records| :: records[i].id
  }

  /** `group_by(&:id)`: each id present, mapped to its records in order. */
  function GroupById(records: seq<Record>): (groups: map<int, seq<Record>>)
    ensures forall i :: 0 <= i < |records| ==> records[i].id in groups && records[i] in groups[records[i].id]
    ensures forall id :: id in groups ==>
      groups[id] != [] && forall j :: 0 <= j < |groups[id]| ==> groups[id][j] in records && groups[id][j].id == id
  {
    map id | id in IdsOf(records) :: Where(records, {id})
  }

  /** The stored ids are unique, as primary keys are. */
  ghost predicate DistinctIds(table: seq<Record>) {
    forall i, j :: 0 <= i < j < |table| ==> table[i].id != table[j].id
  }

  /** Filtering the filtered store by one of the requested ids is filtering the store by it. */
  lemma {:induction false} WhereWithin(table: seq<Record>, ids: set<int>, id: int)
    requires id in ids
    ensures Where(Where(table, ids), {id}) == Where(table, {id})
  {
    if table != [] {
      WhereWithin(table[1..], ids, id);
      var head := if table[0].id in ids then [table[0]] else [];
      WhereAppend(head, Where(table[1..], ids), {id});
    }
  }

  lemma {:induction false} WhereAppend(a: seq<Record>, b: seq<Record>, ids: set<int>)
    ensures Where(a + b, ids) == Where(a, ids) + Where(b, ids)
  {
    if a == [] {
      assert a + b == b;
    } else {
      assert (a + b)[1..] == a[1..] + b;
      WhereAppend(a[1..], b, ids);
    }
  }

  lemma {:induction false} WhereDistinct(table: seq<Record>, ids: set<int>)
    requires DistinctIds(table)
    ensures DistinctIds(Where(table, ids))
  {
    if table != [] {
      DistinctTail(table);
      WhereDistinct(table[1..], ids);
    }
  }

  /** The rest of a store with unique ids has unique ids, none of them the first one's. */
  lemma DistinctTail(table: seq<Record>)
    requires DistinctIds(table) && table != []
    ensures DistinctIds(table[1..])
    ensures forall x :: x in table[1..] ==> x.id != table[0].id
  {
    forall i, j | 0 <= i < j < |table[1..]|
      ensures table[1..][i].id != table[1..][j].id
    {
      assert table[1..][i] == table[i + 1] && table[1..][j] == table[j + 1];
    }
  }

  lemma {:induction false} WhereNone(table: seq<Record>, id: int)
    requires forall x :: x in table ==> x.id != id
    ensures Where(table, {id}) == []
  {
    if table != [] {
      assert table[0] in table;
      assert forall x :: x in table[1..] ==> x in table;
      WhereNone(table[1..], id);
    }
  }

  /** Over unique ids, one id selects at most one record. */
  lemma {:induction false} WhereAtMostOne(table: seq<Record>, id: int)
    requires DistinctIds(table)
    ensures |Where(table, {id})| <= 1
  {
    if table != [] {
      DistinctTail(table);
      if table[0].id == id {
        WhereNone(table[1..], id);
      } else {
        WhereAtMostOne(table[1..], id);
      }
    }
  }

  // ---------------------------------------------------------------------
  // Items
  // ---------------------------------------------------------------------

  /** `item_ids`: the raw id of each hit, in rank order. */
  function ItemIds(results: seq<Hit>): (ids: seq<string>)
    ensures |ids| == |results|
    ensures forall k :: 0 <= k < |results| ==> ids[k] == results[k].id
  {
    seq(|results|, k requires 0 <= k < |results| => results[k].id)
  }

  /** Raw ids converted with `to_i`, in order. */
  function AsIds(raw: seq<string>, toI: string -> int): (r: seq<int>)
    ensures |r| == |raw|
    ensures forall k :: 0 <= k < |raw| ==> r[k] == toI(raw[k])
  {
    seq(|raw|, k requires 0 <= k < |raw| => toI(raw[k]))
  }

  /** The set of ids a `where(id: raw)` query asks for. */
  function IdSet(raw: seq<string>, toI: string -> int): set<int> {
    set k | 0 <= k < |raw| :: toI(raw[k])
  }

  /** `groups[id]`, nil when absent. */
  function Lookup(groups: map<int, seq<Record>>, id: int): Option<seq<Record>> {
    if id in groups then Some(groups[id]) else None
  }

  /** `ids.map { |id| groups[id.to_i] }` */
  function Lookups(ids: seq<string>, groups: map<int, seq<Record>>, toI: string -> int): (r: seq<Option<seq<Record>>>)
    ensures |r| == |ids|
    ensures forall k :: 0 <= k < |ids| ==> r[k] == Lookup(groups, toI(ids[k]))
  {
    seq(|ids|, k requires 0 <= k < |ids| => Lookup(groups, toI(ids[k])))
  }

  /** `x` belongs to the group of one of `ids`. */
  ghost predicate InSomeGroup(x: Record, ids: seq<string>, groups: map<int, seq<Record>>, toI: string -> int) {
    exists k :: 0 <= k < |ids| && toI(ids[k]) in groups && x in groups[toI(ids[k])]
  }

  /** `ordered_items`: `ids.map { |id| groups[id.to_i] }.flatten.compact`. */
  function OrderedItems(ids: seq<string>, groups: map<int, seq<Record>>, toI: string -> int): (r: seq<Record>)
    ensures forall i :: 0 <= i < |r| ==> InSomeGroup(r[i], ids, groups, toI)
  {
    var items := Compact(Flatten(Lookups(ids, groups, toI)));
    OrderedItemsFromGroups(ids, groups, toI, items);
    items
  }

  lemma OrderedItemsFromGroups(ids: seq<string>, groups: map<int, seq<Record>>, toI: string -> int, r: seq<Record>)
    requires r == Compact(Flatten(Lookups(ids, groups, toI)))
    ensures forall i :: 0 <= i < |r| ==> InSomeGroup(r[i], ids, groups, toI)
  {
    var flat := Flatten(Lookups(ids, groups, toI));
    CompactMembers(flat);
    forall i | 0 <= i < |r|
      ensures InSomeGroup(r[i], ids, groups, toI)
    {
      assert Some(r[i]) in flat;
      FlatFromGroups(ids, groups, toI, r[i]);
    }
  }

  lemma FlatFromGroups(ids: seq<string>, groups: map<int, seq<Record>>, toI: string -> int, x: Record)
    requires Some(x) in Flatten(Lookups(ids, groups, toI))
    ensures InSomeGroup(x, ids, groups, toI)
  {
    var lookups := Lookups(ids, groups, toI);
    var flat := Flatten(lookups);
    var j :| 0 <= j < |flat| && flat[j] == Some(x);
    assert flat[j].Some?;
    var k :| 0 <= k < |lookups| && lookups[k].Some? && flat[j].value in lookups[k].value;
    assert lookups[k] == Lookup(groups, toI(ids[k]));
  }

  /** The groups of `ids` concatenated in `ids` order; ids with no group add nothing. */
  function ConcatGroups(ids: seq<string>, groups: map<int, seq<Record>>, toI: string -> int): seq<Record> {
    if ids == [] then []
    else (if toI(ids[0]) in groups then groups[toI(ids[0])] else []) + ConcatGroups(ids[1..], groups, toI)
  }

  lemma {:induction false} OrderedItemsIsConcat(ids: seq<string>, groups: map<int, seq<Record>>, toI: string -> int)
    ensures OrderedItems(ids, groups, toI) == ConcatGroups(ids, groups, toI)
  {
    if ids != [] {
      var ls := Lookups(ids, groups, toI);
      var rest := Lookups(ids[1..], groups, toI);
      assert ls == [ls[0]] + rest;
      FlattenAppend([ls[0]], rest);
      CompactAppend(Flatten([ls[0]]), Flatten(rest));
      assert [ls[0]][1..] == [];
      if ls[0].Some? {
        assert Flatten([ls[0]]) == Somes(ls[0].value);
        CompactSomes(ls[0].value);
      } else {
        assert Flatten([ls[0]]) == [None];
      }
      OrderedItemsIsConcat(ids[1..], groups, toI);
    }
  }

  /** `items_from_response`: the stored records of the hits, in rank order. */
  function ItemsFromResponse(klass: seq<Record>, results: seq<Hit>, toI: string -> int): (items: seq<Record>)
    ensures forall i :: 0 <= i < |items| ==> items[i] in klass && items[i].id in IdSet(ItemIds(results), toI)
  {
    var ids := ItemIds(results);
    var groups := GroupById(Where(klass, IdSet(ids, toI)));
    var items := OrderedItems(ids, groups, toI);
    ItemsFromRankedIds(ids, klass, groups, toI, items);
    items
  }

  lemma ItemsFromRankedIds(ids: seq<string>, klass: seq<Record>, groups: map<int, seq<Record>>, toI: string -> int, items: seq<Record>)
    requires groups == GroupById(Where(klass, IdSet(ids, toI)))
    requires forall i :: 0 <= i < |items| ==> InSomeGroup(items[i], ids, groups, toI)
    ensures forall i :: 0 <= i < |items| ==> items[i] in klass && items[i].id in IdSet(ids, toI)
  {
  }

  /** The ids of `records`, in order. */
  function IdSequence(records: seq<Record>): (r: seq<int>)
    ensures |r| == |records|
    ensures forall i :: 0 <= i < |records| ==> r[i] == records[i].id
  {
    seq(|records|, i requires 0 <= i < |records| => records[i].id)
  }

  /** Groups of at most one record, each under its own id. */
  ghost predicate SingletonGroups(groups: map<int, seq<Record>>) {
    forall id :: id in groups ==> |groups[id]| <= 1 && forall j :: 0 <= j < |groups[id]| ==> groups[id][j].id == id
  }

  lemma {:induction false} ConcatFollowsRanking(ids: seq<string>, groups: map<int, seq<Record>>, toI: string -> int)
    requires SingletonGroups(groups)
    ensures |ConcatGroups(ids, groups, toI)| <= |ids|
    ensures IsSubsequence(IdSequence(ConcatGroups(ids, groups, toI)), AsIds(ids, toI))
  {
    if ids == [] {
      assert Embeds([], IdSequence(ConcatGroups(ids, groups, toI)), AsIds(ids, toI));
    } else {
      var id := toI(ids[0]);
      var tail := ConcatGroups(ids[1..], groups, toI);
      var rankedTail := AsIds(ids[1..], toI);
      ConcatFollowsRanking(ids[1..], groups, toI);
      var idx :| Embeds(idx, IdSequence(tail), rankedTail);
      AsIdsCons(ids, toI);
      if id in groups && groups[id] != [] {
        var r := groups[id][0];
        assert groups[id] == [r];
        assert ConcatGroups(ids, groups, toI) == [r] + tail;
        IdSequenceCons(r, tail);
        EmbedsKeep(id, IdSequence(tail), rankedTail, idx);
      } else {
        assert ConcatGroups(ids, groups, toI) == tail;
        EmbedsSkip(id, IdSequence(tail), rankedTail, idx);
      }
    }
  }

  lemma AsIdsCons(ids: seq<string>, toI: string -> int)
    requires ids != []
    ensures AsIds(ids, toI) == [toI(ids[0])] + AsIds(ids[1..], toI)
  {
  }

  lemma IdSequenceCons(r: Record, rest: seq<Record>)
    ensures IdSequence([r] + rest) == [r.id] + IdSequence(rest)
  {
  }

  /**
   * Over a store with unique ids, the items are at most as many as the
   * hits, and their ids are exactly the hits' converted ids in rank order
   * with the ids that have no stored record left out.
   */
  lemma ItemsFollowRanking(klass: seq<Record>, results: seq<Hit>, toI: string -> int)
    requires DistinctIds(klass)
    ensures |ItemsFromResponse(klass, results, toI)| <= |results|
    ensures IsSubsequence(IdSequence(ItemsFromResponse(klass, results, toI)), AsIds(ItemIds(results), toI))
    ensures IdSequence(ItemsFromResponse(klass, results, toI)) == KeepStored(AsIds(ItemIds(results), toI), IdsOf(klass))
  {
    var ids := ItemIds(results);
    var wanted := IdSet(ids, toI);
    var found := Where(klass, wanted);
    var groups := GroupById(found);
    WhereDistinct(klass, wanted);
    forall id | id in groups
      ensures |groups[id]| <= 1
    {
      WhereAtMostOne(found, id);
    }
    assert ExactGroups(groups);
    forall k | 0 <= k < |ids|
      ensures toI(ids[k]) in groups <==> toI(ids[k]) in IdsOf(klass)
    {
      assert toI(ids[k]) in wanted;
      GroupedIffStored(klass, wanted, toI(ids[k]));
    }
    OrderedItemsIsConcat(ids, groups, toI);
    ConcatFollowsRanking(ids, groups, toI);
    ConcatKeepsStored(ids, groups, toI, IdsOf(klass));
  }

  /** The ids of `ids` that are in `stored`, in order, repeats kept. */
  function KeepStored(ids: seq<int>, stored: set<int>): (r: seq<int>)
    ensures |r| <= |ids|
  {
    if ids == [] then []
    else (if ids[0] in stored then [ids[0]] else []) + KeepStored(ids[1..], stored)
  }

  /** Each group holds exactly one record, under its own id. */
  ghost predicate ExactGroups(groups: map<int, seq<Record>>) {
    forall id :: id in groups ==> |groups[id]| == 1 && groups[id][0].id == id
  }

  /** A requested id has a group after fetching exactly when the store has a record with it. */
  lemma GroupedIffStored(klass: seq<Record>, wanted: set<int>, id: int)
    requires id in wanted
    ensures id in GroupById(Where(klass, wanted)) <==> id in IdsOf(klass)
  {
    var found := Where(klass, wanted);
    if id in GroupById(found) {
      GroupedIsStored(klass, found, id);
    }
    if id in IdsOf(klass) {
      StoredIsGrouped(klass, wanted, found, id);
    }
  }

  lemma GroupedIsStored(klass: seq<Record>, found: seq<Record>, id: int)
    requires forall i :: 0 <= i < |found| ==> found[i] in klass
    requires id in GroupById(found)
    ensures id in IdsOf(klass)
  {
    var groups := GroupById(found);
    var r := groups[id][0];
    GroupMember(found, groups, id, r);
    var i :| 0 <= i < |klass| && klass[i] == r;
    assert klass[i].id == id;
  }

  /** A member of a group is one of the grouped records. */
  lemma GroupMember(records: seq<Record>, groups: map<int, seq<Record>>, id: int, x: Record)
    requires groups == GroupById(records)
    requires id in groups && x in groups[id]
    ensures x in records
  {
    var j :| 0 <= j < |groups[id]| && groups[id][j] == x;
  }

  lemma StoredIsGrouped(klass: seq<Record>, wanted: set<int>, found: seq<Record>, id: int)
    requires forall k :: 0 <= k < |klass| && klass[k].id in wanted ==> klass[k] in found
    requires id in wanted && id in IdsOf(klass)
    ensures id in GroupById(found)
  {
    var i :| 0 <= i < |klass| && klass[i].id == id;
    assert klass[i] in found;
    var j :| 0 <= j < |found| && found[j] == klass[i];
    assert found[j].id in GroupById(found);
  }

  /**
   * With groups of exactly one record under its own id, and a group for
   * a ranked id exactly when it is stored, the concatenation's ids are the
   * stored ranked ids.
   */
  lemma {:induction false} ConcatKeepsStored(ids: seq<string>, groups: map<int, seq<Record>>, toI: string -> int, stored: set<int>)
    requires ExactGroups(groups)
    requires forall k :: 0 <= k < |ids| ==> (toI(ids[k]) in groups <==> toI(ids[k]) in stored)
    ensures IdSequence(ConcatGroups(ids, groups, toI)) == KeepStored(AsIds(ids, toI), stored)
  {
    if ids != [] {
      var id := toI(ids[0]);
      var tail := ConcatGroups(ids[1..], groups, toI);
      var ranked := AsIds(ids, toI);
      assert forall k :: 0 <= k < |ids[1..]| ==> ids[1..][k] == ids[k + 1];
      ConcatKeepsStored(ids[1..], groups, toI, stored);
      AsIdsCons(ids, toI);
      assert ranked[0] == id && ranked[1..] == AsIds(ids[1..], toI);
      if id in groups {
        var r := groups[id][0];
        assert groups[id] == [r];
        assert ConcatGroups(ids, groups, toI) == [r] + tail;
        IdSequenceCons(r, tail);
      } else {
        assert ConcatGroups(ids, groups, toI) == tail;
      }
    }
  }

  /** Hits "5", "5" over a store holding 5 give record 5 twice: repeated hits are kept. */
  lemma RepeatedHitExample(toI: string -> int)
    requires toI("5") == 5
    ensures IdSequence(ItemsFromResponse([Record(5, "five")], [Hit("5"), Hit("5")], toI)) == [5, 5]
  {
    var klass := [Record(5, "five")];
    var results := [Hit("5"), Hit("5")];
    assert DistinctIds(klass);
    ItemsFollowRanking(klass, results, toI);
    var ranked := AsIds(ItemIds(results), toI);
    assert ranked == [5, 5];
    assert klass[0].id == 5;
    assert 5 in IdsOf(klass);
    assert ranked[1..] == [5] && ranked[1..][1..] == [];
  }

  /** Every record in a group of one of `ids` appears in the concatenation. */
  lemma {:induction false} ConcatContains(ids: seq<string>, groups: map<int, seq<Record>>, toI: string -> int, k: nat, x: Record)
    requires k < |ids| && toI(ids[k]) in groups && x in groups[toI(ids[k])]
    ensures x in ConcatGroups(ids, groups, toI)
  {
    if k > 0 {
      assert ids[1..][k - 1] == ids[k];
      ConcatContains(ids[1..], groups, toI, k - 1, x);
    }
  }

  /**
   * No stored record is lost: a record whose id is the converted id of
   * some hit is among the items.
   */
  lemma ItemsCoverStoredHits(klass: seq<Record>, results: seq<Hit>, toI: string -> int)
    ensures forall k, i :: 0 <= k < |results| && 0 <= i < |klass| && klass[i].id == toI(results[k].id) ==>
      klass[i] in ItemsFromResponse(klass, results, toI)
  {
    var ids := ItemIds(results);
    var wanted := IdSet(ids, toI);
    var found := Where(klass, wanted);
    var groups := GroupById(found);
    OrderedItemsIsConcat(ids, groups, toI);
    forall k, i | 0 <= k < |results| && 0 <= i < |klass| && klass[i].id == toI(results[k].id)
      ensures klass[i] in ItemsFromResponse(klass, results, toI)
    {
      assert toI(ids[k]) in wanted;
      assert klass[i] in found;
      var j :| 0 <= j < |found| && found[j] == klass[i];
      assert klass[i] in groups[toI(ids[k])];
      ConcatContains(ids, groups, toI, k, klass[i]);
    }
  }

  /** Hits 5, 3, 9 over a store holding 3 and 5: records 5 then 3, the stale 9 dropped. */
  lemma RankedItemsExample(toI: string -> int)
    requires toI("5") == 5 && toI("3") == 3 && toI("9") == 9
    ensures ItemsFromResponse([Record(3, "three"), Record(5, "five")], [Hit("5"), Hit("3"), Hit("9")], toI)
         == [Record(5, "five"), Record(3, "three")]
  {
    var klass := [Record(3, "three"), Record(5, "five")];
    var results := [Hit("5"), Hit("3"), Hit("9")];
    var ids := ItemIds(results);
    assert ids == ["5", "3", "9"];
    var groups := GroupById(Where(klass, IdSet(ids, toI)));
    ExampleGroups(ids, klass, toI);
    OrderedItemsIsConcat(ids, groups, toI);
    ExampleConcat(ids, groups, toI);
  }

  lemma ExampleGroups(ids: seq<string>, klass: seq<Record>, toI: string -> int)
    requires ids == ["5", "3", "9"] && klass == [Record(3, "three"), Record(5, "five")]
    requires toI("5") == 5 && toI("3") == 3 && toI("9") == 9
    ensures var groups := GroupById(Where(klass, IdSet(ids, toI)));
      groups.Keys == {3, 5} && groups[5] == [Record(5, "five")] && groups[3] == [Record(3, "three")]
  {
    var wanted := IdSet(ids, toI);
    assert toI(ids[0]) in wanted && toI(ids[1]) in wanted;
    var found := Where(klass, wanted);
    var tail := klass[1..];
    assert tail == [Record(5, "five")] && tail[1..] == [];
    assert Where(tail, wanted) == [Record(5, "five")];
    assert found == [Record(3, "three")] + Where(tail, wanted);
    assert found == klass;
    assert found[0].id == 3 && found[1].id == 5;
    assert IdsOf(found) == {3, 5};
    assert Where(tail, {5}) == [Record(5, "five")];
    assert Where(found, {5}) == [Record(5, "five")];
    assert Where(tail, {3}) == [];
    assert Where(found, {3}) == [Record(3, "three")];
  }

  lemma ExampleConcat(ids: seq<string>, groups: map<int, seq<Record>>, toI: string -> int)
    requires ids == ["5", "3", "9"]
    requires toI("5") == 5 && toI("3") == 3 && toI("9") == 9
    requires groups.Keys == {3, 5} && groups[5] == [Record(5, "five")] && groups[3] == [Record(3, "three")]
    ensures ConcatGroups(ids, groups, toI) == [Record(5, "five"), Record(3, "three")]
  {
    assert ids[1..] == ["3", "9"];
    assert ids[1..][1..] == ["9"];
    assert ConcatGroups(ids[1..][1..], groups, toI) == [];
    assert ConcatGroups(ids[1..], groups, toI) == [Record(3, "three")];
  }

  // ---------------------------------------------------------------------
  // Facets
  // ---------------------------------------------------------------------

  /** `facet_objects[id].blank?`: no group, or an empty one. */
  predicate Blank(groups: map<int, seq<Record>>, id: int) {
    id !in groups || groups[id] == []
  }

  /** What one entry adds to `facets_for_term`'s result: a facet, or nothing when its group is blank. */
  function Candidate(groups: map<int, seq<Record>>, entry: TermCount, toI: string -> int, toS: int -> string): Option<SearchFacet> {
    var id := toI(entry.term);
    if Blank(groups, id) then None
    else Some(SearchFacet(toS(id), groups[id][0].labelText, entry.count))
  }

  function Candidates(groups: map<int, seq<Record>>, results: seq<TermCount>, toI: string -> int, toS: int -> string): (r: seq<Option<SearchFacet>>)
    ensures |r| == |results|
    ensures forall k :: 0 <= k < |results| ==> r[k] == Candidate(groups, results[k], toI, toS)
  {
    seq(|results|, k requires 0 <= k < |results| => Candidate(groups, results[k], toI, toS))
  }

  /** `results.map { |result| result['term'] }` */
  function TermIds(results: seq<TermCount>): (r: seq<string>)
    ensures |r| == |results|
    ensures forall k :: 0 <= k < |results| ==> r[k] == results[k].term
  {
    seq(|results|, k requires 0 <= k < |results| => results[k].term)
  }

  /** `klass.where(id: ids).group_by(&:id)` for a category's terms. */
  function FacetObjects(table: seq<Record>, results: seq<TermCount>, toI: string -> int): map<int, seq<Record>> {
    GroupById(Where(table, IdSet(TermIds(results), toI)))
  }

  /** The facets of one category over its store, as `facets_for_term` builds them. */
  function TermFacets(table: seq<Record>, results: seq<TermCount>, toI: string -> int, toS: int -> string): seq<SearchFacet> {
    Compact(Candidates(FacetObjects(table, results, toI), results, toI, toS))
  }

  /**
   * The facet an entry stands for, read off the store: none when no
   * stored record has the entry's id, otherwise the converted id, the
   * label of the first such record, and the entry's count.
   */
  function StoreFacet(table: seq<Record>, entry: TermCount, toI: string -> int, toS: int -> string): Option<SearchFacet> {
    var records := Where(table, {toI(entry.term)});
    if records == [] then None
    else Some(SearchFacet(toS(toI(entry.term)), records[0].labelText, entry.count))
  }

  function StoreFacets(table: seq<Record>, results: seq<TermCount>, toI: string -> int, toS: int -> string): (r: seq<Option<SearchFacet>>)
    ensures |r| == |results|
    ensures forall k :: 0 <= k < |results| ==> r[k] == StoreFacet(table, results[k], toI, toS)
  {
    seq(|results|, k requires 0 <= k < |results| => StoreFacet(table, results[k], toI, toS))
  }

  lemma CandidatesAreStoreFacets(table: seq<Record>, results: seq<TermCount>, toI: string -> int, toS: int -> string)
    ensures Candidates(FacetObjects(table, results, toI), results, toI, toS) == StoreFacets(table, results, toI, toS)
  {
    var ids := IdSet(TermIds(results), toI);
    var found := Where(table, ids);
    var groups := GroupById(found);
    forall k | 0 <= k < |results|
      ensures Candidate(groups, results[k], toI, toS) == StoreFacet(table, results[k], toI, toS)
    {
      var id := toI(results[k].term);
      assert TermIds(results)[k] == results[k].term;
      assert id in ids;
      WhereWithin(table, ids, id);
      if id in groups {
        assert groups[id] == Where(found, {id});
      } else {
        assert Where(found, {id}) == [];
      }
    }
  }

  /**
   * The facets of a category follow its entries' order, at most one per
   * entry; the entries kept are exactly those with a stored record, and
   * each gives the facet `StoreFacet` describes.
   */
  lemma TermFacetsFollowEntries(table: seq<Record>, results: seq<TermCount>, toI: string -> int, toS: int -> string)
    ensures |TermFacets(table, results, toI, toS)| <= |results|
    ensures exists idx :: Picks(idx, TermFacets(table, results, toI, toS), StoreFacets(table, results, toI, toS))
  {
    CandidatesAreStoreFacets(table, results, toI, toS);
    CompactPicks(StoreFacets(table, results, toI, toS));
  }

  /** Terms 10 (count 4) and 11 (count 2) with no record 11: one facet, for 10. */
  lemma FacetExample(toI: string -> int, toS: int -> string)
    requires toI("10") == 10 && toI("11") == 11 && toS(10) == "10"
    ensures TermFacets([Record(10, "Ten")], [TermCount("10", 4), TermCount("11", 2)], toI, toS)
         == [SearchFacet("10", "Ten", 4)]
  {
    var table := [Record(10, "Ten")];
    var results := [TermCount("10", 4), TermCount("11", 2)];
    CandidatesAreStoreFacets(table, results, toI, toS);
    assert table[1..] == [];
    assert Where(table, {10}) == table;
    assert Where(table, {11}) == [];
    var store := StoreFacets(table, results, toI, toS);
    assert store[0] == StoreFacet(table, results[0], toI, toS) == Some(SearchFacet("10", "Ten", 4));
    assert store[1] == StoreFacet(table, results[1], toI, toS) == None;
    assert store == [Some(SearchFacet("10", "Ten", 4))] + [None];
    CompactAppend([Some(SearchFacet("10", "Ten", 4))], [None]);
    var none: seq<Option<SearchFacet>> := [None];
    assert none[1..] == [] && [Some(SearchFacet("10", "Ten", 4))][1..] == [];
  }

  /** `facets_for_term`: resolves the category's model, then collects its facets entry by entry. */
  method FacetsForTerm(registry: Registry, term: string, results: seq<TermCount>, toI: string -> int, toS: int -> string)
    returns (r: Result<seq<SearchFacet>, ResolutionError>)
    ensures term !in registry ==> r == Failure(UnknownModel(term))
    ensures term in registry ==> r == Success(TermFacets(registry[term], results, toI, toS))
  {
    if term !in registry {
      return Failure(UnknownModel(term));
    }
    var klass := registry[term];
    var facetObjects := FacetObjects(klass, results, toI);
    var facets := CollectFacets(facetObjects, results, toI, toS);
    r := Success(facets);
  }

  /**
   * The `results.each` loop of `facets_for_term`: a facet for each entry
   * whose group is not blank, in entry order.
   */
  method CollectFacets(facetObjects: map<int, seq<Record>>, results: seq<TermCount>, toI: string -> int, toS: int -> string)
    returns (facets: seq<SearchFacet>)
    ensures facets == Compact(Candidates(facetObjects, results, toI, toS))
  {
    facets := [];
    var k := 0;
    while k < |results|
      invariant 0 <= k <= |results|
      invariant facets == Compact(Candidates(facetObjects, results[..k], toI, toS))
    {
      var id := toI(results[k].term);
      FacetsStep(facetObjects, results, k, toI, toS);
      if !Blank(facetObjects, id) {
        facets := facets + [SearchFacet(toS(id), facetObjects[id][0].labelText, results[k].count)];
      }
      k := k + 1;
    }
    assert results[..k] == results;
  }

  /** One more entry adds its facet, if its group is not blank, at the end. */
  lemma FacetsStep(groups: map<int, seq<Record>>, results: seq<TermCount>, k: nat, toI: string -> int, toS: int -> string)
    requires k < |results|
    ensures var id := toI(results[k].term);
      Compact(Candidates(groups, results[..k + 1], toI, toS))
      == Compact(Candidates(groups, results[..k], toI, toS))
         + (if Blank(groups, id) then [] else [SearchFacet(toS(id), groups[id][0].labelText, results[k].count)])
  {
    CandidatesSnoc(groups, results, k, toI, toS);
    CompactSnoc(Candidates(groups, results[..k], toI, toS), Candidate(groups, results[k], toI, toS));
  }

  lemma CandidatesSnoc(groups: map<int, seq<Record>>, results: seq<TermCount>, k: nat, toI: string -> int, toS: int -> string)
    requires k < |results|
    ensures Candidates(groups, results[..k + 1], toI, toS)
         == Candidates(groups, results[..k], toI, toS) + [Candidate(groups, results[k], toI, toS)]
  {
    assert results[..k + 1][k] == results[k];
    assert forall j :: 0 <= j < k ==> results[..k + 1][j] == results[..k][j];
  }

  /** Each category's facets, for categories that all name a model. */
  function FacetMap(categories: map<string, seq<TermCount>>, registry: Registry, toI: string -> int, toS: int -> string)
    : (r: map<string, seq<SearchFacet>>)
    requires categories.Keys <= registry.Keys
    ensures r.Keys == categories.Keys
    ensures forall c :: c in r ==> |r[c]| <= |categories[c]|
  {
    map c | c in categories :: TermFacets(registry[c], categories[c], toI, toS)
  }

  /**
   * `facets_from_response`: nil for a response without facets; otherwise
   * the facets of every category under the same category names, or the
   * error of the first category that names no model.
   */
  method FacetsFromResponse(facets: Option<map<string, seq<TermCount>>>, registry: Registry,
                            toI: string -> int, toS: int -> string)
    returns (r: Result<Option<map<string, seq<SearchFacet>>>, ResolutionError>)
    ensures facets.None? ==> r == Success(None)
    ensures facets.Some? && facets.value.Keys <= registry.Keys ==>
      r == Success(Some(FacetMap(facets.value, registry, toI, toS)))
    ensures facets.Some? && !(facets.value.Keys <= registry.Keys) ==>
      r.Failure? && r.error.name in facets.value && r.error.name !in registry
  {
    if facets.None? {
      return Success(None);
    }
    var categories := facets.value;
    var remaining := categories.Keys;
    var hash: map<string, seq<SearchFacet>> := map[];
    while remaining != {}
      invariant remaining <= categories.Keys
      invariant hash.Keys == categories.Keys - remaining
      invariant forall c :: c in hash ==> c in registry && hash[c] == TermFacets(registry[c], categories[c], toI, toS)
      decreases remaining
    {
      var c :| c in remaining;
      var termFacets := FacetsForTerm(registry, c, categories[c], toI, toS);
      if termFacets.Failure? {
        return Failure(termFacets.error);
      }
      hash := hash[c := termFacets.value];
      remaining := remaining - {c};
    }
    assert hash == FacetMap(categories, registry, toI, toS);
    r := Success(Some(hash));
  }

  // ---------------------------------------------------------------------
  // The result object
  // ---------------------------------------------------------------------

  class SearchResult {
    const klass: seq<Record>
    const response: Response
    const registry: Registry
    const toI: string -> int
    const toS: int -> string
    /** `@items`: None until first computed. */
    var itemsMemo: Option<seq<Record>>
    /** `@facets`: None until computed, and still None after a nil result. */
    var facetsMemo: Option<map<string, seq<SearchFacet>>>

    /** What a memo holds, once filled, is what its computation gives. */
    ghost predicate Valid()
      reads this
    {
      && (itemsMemo.Some? ==> itemsMemo.value == ItemsFromResponse(klass, response.results, toI))
      && (facetsMemo.Some? ==>
            && response.facets.Some?
            && response.facets.value.Keys <= registry.Keys
            && facetsMemo.value == FacetMap(response.facets.value, registry, toI, toS))
    }

    constructor (klass: seq<Record>, response: Response, registry: Registry,
                 toI: string -> int, toS: int -> string)
      ensures Valid()
      ensures this.klass == klass && this.response == response && this.registry == registry
      ensures this.toI == toI && this.toS == toS
      ensures itemsMemo.None? && facetsMemo.None?
    {
      this.klass := klass;
      this.response := response;
      this.registry := registry;
      this.toI := toI;
      this.toS := toS;
      itemsMemo := None;
      facetsMemo := None;
    }

    /** `items`, computed on the first call and kept. */
    method Items() returns (items: seq<Record>)
      requires Valid()
      modifies this`itemsMemo
      ensures Valid()
      ensures items == ItemsFromResponse(klass, response.results, toI)
      ensures itemsMemo == Some(items)
    {
      if itemsMemo.None? {
        itemsMemo := Some(ItemsFromResponse(klass, response.results, toI));
      }
      items := itemsMemo.value;
    }

    /** `facets`, kept once computed as a non-nil value. */
    method Facets() returns (r: Result<Option<map<string, seq<SearchFacet>>>, ResolutionError>)
      requires Valid()
      modifies this`facetsMemo
      ensures Valid()
      ensures response.facets.None? ==> r == Success(None) && facetsMemo.None?
      ensures response.facets.Some? && response.facets.value.Keys <= registry.Keys ==>
        && r == Success(Some(FacetMap(response.facets.value, registry, toI, toS)))
        && facetsMemo == r.value
      ensures response.facets.Some? && !(response.facets.value.Keys <= registry.Keys) ==>
        && r.Failure? && r.error.name in response.facets.value && r.error.name !in registry
        && facetsMemo.None?
    {
      if facetsMemo.Some? {
        return Success(facetsMemo);
      }
      r := FacetsFromResponse(response.facets, registry, toI, toS);
      if r.Success? {
        facetsMemo := r.value;
      }
    }

    /** `empty?` */
    method IsEmpty() returns (empty: bool)
      requires Valid()
      modifies this`itemsMemo
      ensures Valid() && itemsMemo.Some?
      ensures empty <==> ItemsFromResponse(klass, response.results, toI) == []
    {
      var items := Items();
      empty := items == [];
    }

    /** `size`, also called `length`. */
    method Size() returns (n: nat)
      requires Valid()
      modifies this`itemsMemo
      ensures Valid() && itemsMemo.Some?
      ensures n == |ItemsFromResponse(klass, response.results, toI)|
    {
      var items := Items();
      n := |items|;
    }

    /** `self[index]`: Ruby array indexing, negative indices counting from the end, nil outside. */
    method At(index: int) returns (r: Option<Record>)
      requires Valid()
      modifies this`itemsMemo
      ensures Valid() && itemsMemo.Some?
      ensures var items := ItemsFromResponse(klass, response.results, toI);
        r == if 0 <= index < |items| then Some(items[index])
             else if -|items| <= index < 0 then Some(items[|items| + index])
             else None
    {
      var items := Items();
      if 0 <= index < |items| {
        r := Some(items[index]);
      } else if -|items| <= index < 0 {
        r := Some(items[|items| + index]);
      } else {
        r := None;
      }
    }
  }

  /** `SearchResult.new(model_name, response)`: raises for a model name that names no model. */
  method NewSearchResult(modelName: string, response: Response, registry: Registry,
                         toI: string -> int, toS: int -> string)
    returns (r: Result<SearchResult, ResolutionError>)
    ensures modelName !in registry ==> r == Failure(UnknownModel(modelName))
    ensures modelName in registry ==>
      && r.Success? && fresh(r.value) && r.value.Valid()
      && r.value.klass == registry[modelName] && r.value.response == response
      && r.value.registry == registry && r.value.toI == toI && r.value.toS == toS
      && r.value.itemsMemo.None? && r.value.facetsMemo.None?
  {
    if modelName !in registry {
      return Failure(UnknownModel(modelName));
    }
    var result := new SearchResult(registry[modelName], response, registry, toI, toS);
    r := Success(result);
  }

  /**
   * Calls on one result agree with each other: two `items` calls give the
   * same records, `empty?` holds exactly when `size` is zero, and indexing
   * inside the size gives the item at that position.
   */
  method ConsistentViews(sr: SearchResult, index: int)
    returns (first: seq<Record>, second: seq<Record>, empty: bool, size: nat, at: Option<Record>)
    requires sr.Valid()
    modifies sr`itemsMemo
    ensures first == second
    ensures empty <==> size == 0
    ensures size == |first|
    ensures 0 <= index < size ==> at == Some(first[index])
  {
    first := sr.Items();
    empty := sr.IsEmpty();
    size := sr.Size();
    at := sr.At(index);
    second := sr.Items();
  }
}
