/** Relation expansion: one fetch per relation for a whole page of items
    (serializer/serializer.go:305-409, internal/idkey/idkey.go). */
module RelationExpansion {
  import opened Options
  import opened SqlText
  import opened Digraphs

  /** A field's value: text, a number, or something else that may show an id. */
  datatype Value = Nil | Str(s: string) | Whole(n: int) | Opaque(tag: nat, shown: string)

  type Fields = map<string, Value>

  /** idkey.Format: the key a value addresses a row by, if any. */
  function Format(v: Value): (key: Option<string>)
    ensures key.Some? ==> key.value != ""
  {
    match v
    case Nil => None
    case Str(s) => if s == "" then None else Some(s)
    case Whole(n) => Some(if n < 0 then "-" + Decimal(-n) else Decimal(n))
    case Opaque(_, shown) => if shown == "" then None else Some(shown)
  }

  /** A whole number's key is its decimal notation: a minus sign only before
      the digits of a negative one. */
  lemma WholeKey(n: int)
    ensures
      var key := Format(Whole(n)).value;
      if n >= 0 then AllDigits(key) && Number(key) == n
      else key[0] == '-' && AllDigits(key[1..]) && Number(key[1..]) == -n
  {
    if n >= 0 {
      NumberOfDecimal(n);
    } else {
      NumberOfDecimal(-n);
      assert ("-" + Decimal(-n))[1..] == Decimal(-n);
    }
  }

  /** Which values have a key, and which share one: a text is its own key, so a
      number and the text of its digits address the same row, and two numbers
      never do. */
  lemma KeyMeans(a: Value, n: int, k: int, s: string)
    ensures Format(a) == None <==> a == Nil || a == Str("") || (a.Opaque? && a.shown == "")
    ensures s != "" ==> Format(Str(s)) == Some(s)
    ensures Format(Whole(n)) == Format(Whole(k)) <==> n == k
    ensures n >= 0 ==> Format(Str(Decimal(n))) == Format(Whole(n))
    ensures AllDigits(s) && Format(Str(s)) == Format(Whole(n)) ==> n == Number(s)
  {
    WholeKey(n);
    WholeKey(k);
    if n < 0 { assert Format(Whole(n)).value[0] == '-'; }
  }

  datatype RelationConfig = RelationConfig(foreignKeyField: string, hasFetcher: bool)
  datatype Fetched = Rows(rows: map<string, Value>) | FetchError

  /** The fetchers of all relations: relation and ids in, rows by id out. */
  type Fetcher = (string, seq<string>) -> Fetched

  /** One fetch: the relation and the ids asked for. */
  datatype Fetch = Fetch(relation: string, ids: seq<string>)

  class Item {
    var fields: Fields

    constructor (fields: Fields)
      ensures this.fields == fields
    {
      this.fields := fields;
    }
  }

  function KeyIn(m: Fields, fk: string): Option<string> {
    Format(if fk in m then m[fk] else Nil)
  }

  // --------------------------------------------------- what expansion computes

  /** The keys of the items, each once, in order of first appearance. */
  function Ids(maps: seq<Option<Fields>>, fk: string): seq<string> {
    if maps == [] then []
    else
      var ids, last := Ids(maps[..|maps| - 1], fk), maps[|maps| - 1];
      if last.None? || KeyIn(last.value, fk).None? || KeyIn(last.value, fk).value in ids then ids
      else ids + [KeyIn(last.value, fk).value]
  }

  function ExpandField(m: Fields, rel: string, fk: string, rows: map<string, Value>): Fields {
    var key := KeyIn(m, fk);
    if key.None? || key.value !in rows then m else m[rel := rows[key.value]] - {fk}
  }

  function ExpandMaps(maps: seq<Option<Fields>>, rel: string, fk: string, rows: map<string, Value>): seq<Option<Fields>> {
    seq(|maps|, i requires 0 <= i < |maps| => if maps[i].None? then None else Some(ExpandField(maps[i].value, rel, fk, rows)))
  }

  predicate Configured(configs: map<string, RelationConfig>, rel: string) {
    rel in configs && configs[rel].hasFetcher
  }

  function RelatedRows(maps: seq<Option<Fields>>, rel: string, fk: string, fetch: Fetcher): Fetched {
    if Ids(maps, fk) == [] then Rows(map[]) else fetch(rel, Ids(maps, fk))
  }

  /** One relation for all items. */
  function BatchStep(maps: seq<Option<Fields>>, rel: string, configs: map<string, RelationConfig>, fetch: Fetcher): seq<Option<Fields>> {
    if !Configured(configs, rel) then maps
    else match RelatedRows(maps, rel, configs[rel].foreignKeyField, fetch)
      case FetchError => maps
      case Rows(rows) => ExpandMaps(maps, rel, configs[rel].foreignKeyField, rows)
  }

  function Batch(maps: seq<Option<Fields>>, relations: seq<string>, configs: map<string, RelationConfig>, fetch: Fetcher): seq<Option<Fields>> {
    if relations == [] then maps
    else BatchStep(Batch(maps, relations[..|relations| - 1], configs, fetch), relations[|relations| - 1], configs, fetch)
  }

  /** What fetching one relation for all items asks for. */
  function FetchOf(maps: seq<Option<Fields>>, rel: string, fk: string): seq<Fetch> {
    if Ids(maps, fk) == [] then [] else [Fetch(rel, Ids(maps, fk))]
  }

  function StepFetch(maps: seq<Option<Fields>>, rel: string, configs: map<string, RelationConfig>): seq<Fetch> {
    if Configured(configs, rel) then FetchOf(maps, rel, configs[rel].foreignKeyField) else []
  }

  /** All fetches: each relation with the keys the items hold once the relations
      before it are expanded. */
  function Fetches(maps: seq<Option<Fields>>, relations: seq<string>, configs: map<string, RelationConfig>, fetch: Fetcher): seq<Fetch> {
    if relations == [] then []
    else
      var before, rel := relations[..|relations| - 1], relations[|relations| - 1];
      Fetches(maps, before, configs, fetch) + StepFetch(Batch(maps, before, configs, fetch), rel, configs)
  }

  function RelationsOf(fetches: seq<Fetch>): seq<string> {
    seq(|fetches|, i requires 0 <= i < |fetches| => fetches[i].relation)
  }

  /** No relation is fetched more often than it is listed, and no fetch is empty
      or asks for an id twice. */
  ghost predicate Sparing(fetches: seq<Fetch>, relations: seq<string>) {
    && multiset(RelationsOf(fetches)) <= multiset(relations)
    && forall f :: f in fetches ==> f.ids != [] && Distinct(f.ids)
  }

  /** However many items there are. */
  lemma {:induction false} FetchedOnce(maps: seq<Option<Fields>>, relations: seq<string>, configs: map<string, RelationConfig>, fetch: Fetcher)
    ensures Sparing(Fetches(maps, relations, configs, fetch), relations)
  {
    if relations != [] {
      var before, rel := relations[..|relations| - 1], relations[|relations| - 1];
      FetchedOnce(maps, before, configs, fetch);
      var expanded := Batch(maps, before, configs, fetch);
      StepFetchesOnce(expanded, rel, configs);
      OneMore(Fetches(maps, before, configs, fetch), StepFetch(expanded, rel, configs), before, rel);
      assert before + [rel] == relations;
    }
  }

  lemma StepFetchesOnce(maps: seq<Option<Fields>>, rel: string, configs: map<string, RelationConfig>)
    ensures Sparing(StepFetch(maps, rel, configs), [rel])
  {
    if Configured(configs, rel) { IdsAreTheKeys(maps, configs[rel].foreignKeyField); }
    var fetches := StepFetch(maps, rel, configs);
    assert fetches != [] ==> RelationsOf(fetches) == [rel];
  }

  lemma OneMore(fetches: seq<Fetch>, last: seq<Fetch>, relations: seq<string>, rel: string)
    requires Sparing(fetches, relations) && Sparing(last, [rel])
    ensures Sparing(fetches + last, relations + [rel])
  {
    assert RelationsOf(fetches + last) == RelationsOf(fetches) + RelationsOf(last);
  }

  // --------------------------------------------------- item by item

  /** The fetchers never fail, and what they answer for a key depends on the
      relation and the key alone. */
  ghost predicate Reliable(fetch: Fetcher, answer: (string, string) -> Option<Value>) {
    forall rel, ids ::
      fetch(rel, ids).Rows? && forall id :: id in ids ==>
        (id in fetch(rel, ids).rows <==> answer(rel, id).Some?) && (answer(rel, id).Some? ==> fetch(rel, ids).rows[id] == answer(rel, id).value)
  }

  /** One relation of one item, looked up for it alone. */
  function LookUp(m: Fields, rel: string, configs: map<string, RelationConfig>, answer: (string, string) -> Option<Value>): Fields {
    if !Configured(configs, rel) then m
    else
      var fk := configs[rel].foreignKeyField;
      var key := KeyIn(m, fk);
      if key.None? || answer(rel, key.value).None? then m else m[rel := answer(rel, key.value).value] - {fk}
  }

  function LookUpAll(m: Fields, relations: seq<string>, configs: map<string, RelationConfig>, answer: (string, string) -> Option<Value>): Fields {
    if relations == [] then m
    else LookUp(LookUpAll(m, relations[..|relations| - 1], configs, answer), relations[|relations| - 1], configs, answer)
  }

  /** All keys of the items, and no others, each once. */
  lemma {:induction false} IdsAreTheKeys(maps: seq<Option<Fields>>, fk: string)
    ensures Distinct(Ids(maps, fk))
    ensures forall i :: 0 <= i < |maps| && maps[i].Some? && KeyIn(maps[i].value, fk).Some? ==> KeyIn(maps[i].value, fk).value in Ids(maps, fk)
    ensures forall id :: id in Ids(maps, fk) ==> exists i :: 0 <= i < |maps| && maps[i].Some? && KeyIn(maps[i].value, fk) == Some(id)
  {
    if maps != [] {
      var n := |maps| - 1;
      IdsAreTheKeys(maps[..n], fk);
      forall i | 0 <= i < |maps| && maps[i].Some? && KeyIn(maps[i].value, fk).Some? ensures KeyIn(maps[i].value, fk).value in Ids(maps, fk) {
        if i < n { assert maps[..n][i] == maps[i]; }
      }
      forall id | id in Ids(maps, fk) ensures exists i :: 0 <= i < |maps| && maps[i].Some? && KeyIn(maps[i].value, fk) == Some(id) {
        if id in Ids(maps[..n], fk) {
          var i :| 0 <= i < n && maps[..n][i].Some? && KeyIn(maps[..n][i].value, fk) == Some(id);
          assert maps[i].Some? && KeyIn(maps[i].value, fk) == Some(id);
        } else {
          assert maps[n].Some? && KeyIn(maps[n].value, fk) == Some(id);
        }
      }
    }
  }

  lemma StepIsLookUp(maps: seq<Option<Fields>>, rel: string, configs: map<string, RelationConfig>, fetch: Fetcher,
                     answer: (string, string) -> Option<Value>, i: nat)
    requires Reliable(fetch, answer) && i < |maps|
    ensures
      var after := BatchStep(maps, rel, configs, fetch);
      |after| == |maps| && after[i] == if maps[i].None? then None else Some(LookUp(maps[i].value, rel, configs, answer))
  {
    if Configured(configs, rel) {
      var fk := configs[rel].foreignKeyField;
      IdsAreTheKeys(maps, fk);
      assert fetch(rel, Ids(maps, fk)).Rows?;
    }
  }

  /** Batched expansion is looking up every item alone, for any items and any
      list of relations. */
  lemma {:induction false} BatchIsPerItem(maps: seq<Option<Fields>>, relations: seq<string>, configs: map<string, RelationConfig>, fetch: Fetcher,
                                          answer: (string, string) -> Option<Value>, i: nat)
    requires Reliable(fetch, answer) && i < |maps|
    ensures
      var after := Batch(maps, relations, configs, fetch);
      |after| == |maps| && after[i] == if maps[i].None? then None else Some(LookUpAll(maps[i].value, relations, configs, answer))
    decreases |relations|
  {
    if relations != [] {
      var n := |relations| - 1;
      BatchIsPerItem(maps, relations[..n], configs, fetch, answer, i);
      StepIsLookUp(Batch(maps, relations[..n], configs, fetch), relations[n], configs, fetch, answer, i);
    }
  }

  /** The other items do not matter: a page expands like its items alone. */
  lemma BatchIsAlone(maps: seq<Option<Fields>>, relations: seq<string>, configs: map<string, RelationConfig>, fetch: Fetcher,
                     answer: (string, string) -> Option<Value>, i: nat)
    requires Reliable(fetch, answer) && i < |maps|
    ensures |Batch(maps, relations, configs, fetch)| == |maps| && |Batch([maps[i]], relations, configs, fetch)| == 1
    ensures Batch(maps, relations, configs, fetch)[i] == Batch([maps[i]], relations, configs, fetch)[0]
  {
    BatchIsPerItem(maps, relations, configs, fetch, answer, i);
    BatchIsPerItem([maps[i]], relations, configs, fetch, answer, 0);
  }

  // --------------------------------------------------- the loops

  /** Items that cannot be taken apart are null; the others are distinct. */
  predicate DistinctItems(items: seq<Item?>) {
    forall i, j :: 0 <= i < j < |items| && items[i] != null ==> items[i] != items[j]
  }

  function FieldsOf(item: Item?): Option<Fields>
    reads item
  {
    if item == null then None else Some(item.fields)
  }

  function Snapshot(items: seq<Item?>): seq<Option<Fields>>
    reads set i | 0 <= i < |items| :: items[i]
  {
    seq(|items|, i requires 0 <= i < |items| reads set j | 0 <= j < |items| :: items[j] => FieldsOf(items[i]))
  }

  /** fetchRelation: the ids, each once, and one fetch unless there are none. */
  method FetchRelation(maps: seq<Item?>, rel: string, cfg: RelationConfig, fetch: Fetcher) returns (related: Fetched, fetches: seq<Fetch>)
    ensures related == RelatedRows(Snapshot(maps), rel, cfg.foreignKeyField, fetch)
    ensures fetches == FetchOf(Snapshot(maps), rel, cfg.foreignKeyField)
    ensures |fetches| <= 1 && forall f :: f in fetches ==> f.ids != [] && Distinct(f.ids)
  {
    var ids := CollectIds(maps, cfg.foreignKeyField);
    if |ids| == 0 {
      return Rows(map[]), [];
    }
    IdsAreTheKeys(Snapshot(maps), cfg.foreignKeyField);
    related := fetch(rel, ids);
    fetches := [Fetch(rel, ids)];
  }

  method CollectIds(maps: seq<Item?>, fk: string) returns (ids: seq<string>)
    ensures ids == Ids(Snapshot(maps), fk)
  {
    ids := [];
    var seen := {};
    ghost var all := Snapshot(maps);
    for i := 0 to |maps|
      invariant ids == Ids(all[..i], fk) && seen == Elements(ids)
    {
      assert all[..i + 1][..i] == all[..i];
      if maps[i] == null {
        continue;
      }
      var key := KeyIn(maps[i].fields, fk);
      if key.None? {
        continue;
      }
      if key.value in seen {
        continue;
      }
      ElementsAppend(ids, key.value);
      seen := seen + {key.value};
      ids := ids + [key.value];
    }
    assert all[..|all|] == all;
  }

  /** The loop that writes the related rows into the items. */
  method WriteRows(maps: seq<Item?>, rel: string, fk: string, rows: map<string, Value>)
    requires DistinctItems(maps)
    modifies set i | 0 <= i < |maps| && maps[i] != null :: maps[i]
    ensures Snapshot(maps) == ExpandMaps(old(Snapshot(maps)), rel, fk, rows)
  {
    for i := 0 to |maps|
      invariant forall j :: 0 <= j < i && maps[j] != null ==> maps[j].fields == ExpandField(old(maps[j].fields), rel, fk, rows)
      invariant forall j :: i <= j < |maps| && maps[j] != null ==> maps[j].fields == old(maps[j].fields)
    {
      if maps[i] == null {
        continue;
      }
      var key := KeyIn(maps[i].fields, fk);
      if key.None? {
        continue;
      }
      if key.value !in rows {
        continue;
      }
      maps[i].fields := maps[i].fields[rel := rows[key.value]] - {fk};
    }
  }

  /** expandItems, with the fetches it makes. */
  method ExpandItems(maps: seq<Item?>, relations: seq<string>, configs: map<string, RelationConfig>, fetch: Fetcher) returns (fetches: seq<Fetch>)
    requires DistinctItems(maps)
    modifies set i | 0 <= i < |maps| && maps[i] != null :: maps[i]
    ensures Snapshot(maps) == Batch(old(Snapshot(maps)), relations, configs, fetch)
    ensures fetches == Fetches(old(Snapshot(maps)), relations, configs, fetch)
    ensures Sparing(fetches, relations)
  {
    fetches := [];
    ghost var before := Snapshot(maps);
    for k := 0 to |relations|
      invariant Snapshot(maps) == Batch(before, relations[..k], configs, fetch)
      invariant fetches == Fetches(before, relations[..k], configs, fetch)
    {
      assert relations[..k + 1][..k] == relations[..k];
      var rel := relations[k];
      if rel !in configs || !configs[rel].hasFetcher {
        continue;
      }
      var cfg := configs[rel];
      var related, fetched := FetchRelation(maps, rel, cfg, fetch);
      fetches := fetches + fetched;
      if related.FetchError? {
        continue;
      }
      WriteRows(maps, rel, cfg.foreignKeyField, related.rows);
    }
    assert relations[..|relations|] == relations;
    FetchedOnce(before, relations, configs, fetch);
  }
}
