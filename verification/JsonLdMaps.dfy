/** The map path of the serializer, and that the streaming path refines it
    (serializer/serializer.go:69-113, 174-262; serializer/fastld.go:104-181). */
module JsonLdMaps {
  import opened JsonStrings
  import opened JsonValues
  import opened JsonLd
  import opened ForeignKeyOrders

  // --------------------------------------------------- the map path

  method StructToMap(t: StructType, r: Record) returns (result: map<Text, Scalar>)
    requires Fits(t, r)
    ensures result == MapOf(RawMembers(t, r, |r|))
  {
    result := map[];
    for i := 0 to |t.fields|
      invariant result == MapOf(RawMembers(t, r, i))
    {
      var f := t.fields[i];
      ghost var before := RawMembers(t, r, i);
      if !Shown(f) || (OmitsEmpty(f) && IsZero(r[i])) {
        assert before + [] == before;
        continue;
      }
      assert (before + [(JsonKey(f), r[i])])[..|before|] == before;
      result := result[JsonKey(f) := r[i]];
    }
  }

  lemma MapOfAppend(ms: seq<Member>, m: Member)
    ensures MapOf(ms + [m]) == MapOf(ms)[m.0 := m.1]
  {
    assert (ms + [m])[..|ms|] == ms;
  }

  /** Only an empty string is shown as nothing. */
  lemma EmptyDisplay(v: Scalar)
    requires v.Leaf? ==> v.display != []
    ensures Display(v) == [] <==> v == Plain([])
  {}

  lemma {:induction false} MapValueFits(t: StructType, r: Record, n: nat, key: Text)
    requires Fits(t, r) && n <= |r| && key in MapOf(RawMembers(t, r, n))
    ensures MapOf(RawMembers(t, r, n))[key].Leaf? ==> MapOf(RawMembers(t, r, n))[key].display != []
  {
    if n > 0 {
      var before := RawMembers(t, r, n - 1);
      if Kept(t.fields[n - 1], r[n - 1]) {
        MapOfAppend(before, (JsonKey(t.fields[n - 1]), r[n - 1]));
        if key != JsonKey(t.fields[n - 1]) { MapValueFits(t, r, n - 1, key); }
      } else {
        assert before + [] == before;
        MapValueFits(t, r, n - 1, key);
      }
    }
  }

  /** No key is written twice, and no relation name is shaped like a foreign key
      itself, so that the order of map iteration does not matter. */
  ghost predicate NoClash(p: seq<Member>) {
    && DistinctKeys(p) && DistinctKeys(RewriteAll(p))
    && forall m :: m in p && Rewrites(m) ==> !IsForeignKey(RelationName(m.0))
  }

  /** What the map path makes of a record, whatever the order of its map. */
  method AddTypeToItem(t: StructType, r: Record, path: Text) returns (item: map<Text, Scalar>)
    requires Fits(t, r)
    ensures CanEnd(MapOf(MapMembers(t, r, path)), item)
    ensures NoClash(MapMembers(t, r, path)) ==> item == MapOf(RewriteAll(MapMembers(t, r, path)))
  {
    item := AddTypeAndId(t, r, path);
    item := RewriteForeignKeys(item);
    if NoClash(MapMembers(t, r, path)) { NoClashEnds(MapMembers(t, r, path), item); }
  }

  method AddTypeAndId(t: StructType, r: Record, path: Text) returns (item: map<Text, Scalar>)
    requires Fits(t, r)
    ensures item == MapOf(MapMembers(t, r, path))
  {
    var raw := StructToMap(t, r);
    item := raw;
    ghost var members := RawMembers(t, r, |r|);
    TypeAndIdAdded(t, r, path, raw);
    if t.name != [] {
      item := item[AT_TYPE := Plain(t.name)];
    }
    if ID in item && item[ID] != Plain([]) {
      item := item[AT_ID := Plain(ItemIri(path, Display(item[ID])))];
    }
  }

  lemma TypeAndIdAdded(t: StructType, r: Record, path: Text, raw: map<Text, Scalar>)
    requires Fits(t, r) && raw == MapOf(RawMembers(t, r, |r|))
    ensures AT_TYPE != ID
    ensures
      var typed := if t.name != [] then raw[AT_TYPE := Plain(t.name)] else raw;
      MapOf(MapMembers(t, r, path)) ==
        if ID in raw && raw[ID] != Plain([]) then typed[AT_ID := Plain(ItemIri(path, Display(raw[ID])))] else typed
  {
    var members := RawMembers(t, r, |r|);
    KeysDiffer();
    assert members + [] == members;
    MapOfAppend(members, (AT_TYPE, Plain(t.name)));
    var typed := members + TypeMembers(t);
    assert typed + [] == typed;
    if ID in raw {
      MapValueFits(t, r, |r|, ID);
      EmptyDisplay(raw[ID]);
      MapOfAppend(typed, (AT_ID, Plain(ItemIri(path, Display(raw[ID])))));
    }
  }

  lemma SuffixAt(s: Text, suffix: Text, k: nat)
    requires k < |suffix| <= |s|
    ensures HasSuffix(s, suffix) ==> s[|s| - |suffix| + k] == suffix[k]
  {
    assert s[|s| - |suffix|..][k] == s[|s| - |suffix| + k];
  }

  /** Keys that do not end in d, or end in small id behind another byte. */
  lemma NoForeignKey(key: Text)
    requires |key| >= 3 && (key[|key| - 1] != 0x64 || (key[|key| - 3] != 0x5F && key[|key| - 2] != 0x49))
    ensures !IsForeignKey(key)
  {
    var a, b := Ascii("_id"), Ascii("Id");
    assert |a| == 3 && a[0] == 0x5F && a[2] == 0x64;
    assert |b| == 2 && b[0] == 0x49 && b[1] == 0x64;
    SuffixAt(key, a, 0);
    SuffixAt(key, a, 2);
    SuffixAt(key, b, 0);
    SuffixAt(key, b, 1);
  }

  lemma KeysDiffer()
    ensures AT_TYPE != ID && AT_ID != ID && AT_TYPE != AT_ID && AT_CONTEXT != AT_ID && AT_CONTEXT != AT_TYPE
    ensures !IsForeignKey(AT_TYPE) && !IsForeignKey(AT_ID) && !IsForeignKey(AT_CONTEXT)
  {
    assert |AT_TYPE| == 5 && |ID| == 2 && |AT_ID| == 3 && |AT_CONTEXT| == 8;
    assert AT_TYPE[4] == 0x65 && AT_ID[0] == 0x40 && AT_ID[1] == 0x69 && AT_CONTEXT[7] == 0x74;
    NoForeignKey(AT_TYPE);
    NoForeignKey(AT_ID);
    NoForeignKey(AT_CONTEXT);
  }

  // --------------------------------------------------- members after the loop

  lemma KeysOfMap(p: seq<Member>)
    requires DistinctKeys(p)
    ensures forall i :: 0 <= i < |p| ==> p[i].0 in MapOf(p) && MapOf(p)[p[i].0] == p[i].1
    ensures forall k :: k in MapOf(p) ==> exists i :: 0 <= i < |p| && p[i].0 == k
  {
    MapOfMembers(p);
    forall i | 0 <= i < |p| ensures p[i].0 in MapOf(p) && MapOf(p)[p[i].0] == p[i].1 {
      assert (p[i].0, p[i].1) in p;
    }
    forall k | k in MapOf(p) ensures exists i :: 0 <= i < |p| && p[i].0 == k {
      assert (k, MapOf(p)[k]) in p;
    }
  }

  lemma IndexOfKey(p: seq<Member>, key: Text) returns (i: nat)
    requires DistinctKeys(p) && key in MapOf(p)
    ensures i < |p| && p[i] == (key, MapOf(p)[key])
  {
    KeysOfMap(p);
    i :| 0 <= i < |p| && p[i].0 == key;
  }

  lemma OnePlace(p: seq<Member>, i: nat, j: nat)
    requires DistinctKeys(p) && i < |p| && j < |p| && p[i].0 == p[j].0
    ensures i == j
  {}

  lemma NoClashIsSettled(p: seq<Member>)
    requires NoClash(p)
    ensures Settled(MapOf(p))
  {
    var m, all := MapOf(p), RewriteAll(p);
    forall k | IsRewritten(m, k) ensures !IsForeignKey(RelationName(k)) {
      var i := IndexOfKey(p, k);
      assert p[i] in p;
    }
    forall k, l | IsRewritten(m, k) && IsRewritten(m, l) && RelationName(k) == RelationName(l) ensures m[k] == m[l] {
      var i := IndexOfKey(p, k);
      var j := IndexOfKey(p, l);
      assert all[i].0 == all[j].0;
      OnePlace(all, i, j);
    }
  }

  /** A member before and after. */
  lemma MemberRewritten(p: seq<Member>, i: nat)
    requires NoClash(p) && i < |p|
    ensures
      var m, all, plan := MapOf(p), MapOf(RewriteAll(p)), PlanOf(MapOf(p));
      && p[i].0 in m && m[p[i].0] == p[i].1 && (p[i].0 in plan <==> Rewrites(p[i]))
      && Rewrite(p[i]).0 in all && all[Rewrite(p[i]).0] == Rewrite(p[i]).1
      && (Rewrites(p[i]) ==> plan[p[i].0] == Rewrite(p[i]) && Gives(plan, {}, p[i].0, Rewrite(p[i]).0))
  {
    KeysOfMap(p);
    KeysOfMap(RewriteAll(p));
    assert RewriteAll(p)[i] == Rewrite(p[i]);
  }

  lemma MembersRewritten(p: seq<Member>)
    requires NoClash(p)
    ensures PartlyRewritten(PlanOf(MapOf(p)), MapOf(p), {}, MapOf(RewriteAll(p)))
  {
    var m, all, plan := MapOf(p), MapOf(RewriteAll(p)), PlanOf(MapOf(p));
    forall n ensures n in all <==> (n in m && n !in plan) || Given(plan, {}, n) {
      if n in all {
        var i := IndexOfKey(RewriteAll(p), n);
        MemberRewritten(p, i);
      }
      if n in m && n !in plan {
        var i := IndexOfKey(p, n);
        MemberRewritten(p, i);
      }
      if k :| Gives(plan, {}, k, n) {
        var i := IndexOfKey(p, k);
        MemberRewritten(p, i);
      }
    }
    forall n, k | Gives(plan, {}, k, n) ensures all[n] == plan[k].1 {
      var i := IndexOfKey(p, k);
      MemberRewritten(p, i);
    }
    forall n | n in all && !Given(plan, {}, n) ensures n in m && all[n] == m[n] {
      var i := IndexOfKey(RewriteAll(p), n);
      MemberRewritten(p, i);
    }
  }

  /** Without clashes the loop has one result: the rewritten members. */
  lemma NoClashEnds(p: seq<Member>, item: map<Text, Scalar>)
    requires NoClash(p) && CanEnd(MapOf(p), item)
    ensures item == MapOf(RewriteAll(p))
  {
    NoClashIsSettled(p);
    EndIsRewritten(MapOf(p), item);
    MembersRewritten(p);
    RewrittenIsOne(PlanOf(MapOf(p)), MapOf(p), item, MapOf(RewriteAll(p)));
  }

  // --------------------------------------------------- whole documents

  datatype Data = One(t: StructType, r: Record) | Many(t: StructType, rs: seq<Record>)

  predicate DataFits(data: Data) {
    match data
    case One(t, r) => Fits(t, r)
    case Many(t, rs) => forall i :: 0 <= i < |rs| ==> Fits(t, rs[i])
  }

  const CONTEXT: Member := (AT_CONTEXT, Plain(SCHEMA_URL))

  /** The bytes every document begins with. */
  function Opening(): Text {
    [OPEN_BRACE, QUOTE] + AT_CONTEXT + [QUOTE, COLON, QUOTE] + SCHEMA_URL + [QUOTE]
  }

  function GraphOpening(): Text {
    [COMMA, QUOTE] + AT_GRAPH + [QUOTE, COLON, OPEN_BRACKET]
  }

  /** Objects with commas between them. */
  function ItemsBytes(first: bool, items: seq<seq<Member>>): Text {
    if items == [] then []
    else
      var run := ObjectBytes(items[0]) + ItemsBytes(false, items[1..]);
      if first then run else [COMMA] + run
  }

  function FastItems(t: StructType, rs: seq<Record>, path: Text): seq<seq<Member>>
    requires DataFits(Many(t, rs))
  {
    seq(|rs|, i requires 0 <= i < |rs| => FastMembers(t, rs[i], path))
  }

  /** What the streaming path writes. */
  function FastBytes(data: Data, path: Text): Text
    requires DataFits(data)
  {
    match data
    case One(t, r) => Opening() + Listed(false, FastMembers(t, r, path)) + [CLOSE_BRACE]
    case Many(t, rs) => Opening() + GraphOpening() + ItemsBytes(true, FastItems(t, rs, path)) + [CLOSE_BRACKET, CLOSE_BRACE]
  }

  predicate LeftToMapPath(data: Data)
    requires DataFits(data)
  {
    match data
    case One(t, r) => HasEmptyForeignKey(t, r)
    case Many(t, rs) => exists i :: 0 <= i < |rs| && HasEmptyForeignKey(t, rs[i])
  }

  lemma {:induction false} ItemsAppend(first: bool, items: seq<seq<Member>>, item: seq<Member>)
    ensures ItemsBytes(first, items + [item])
            == ItemsBytes(first, items) + (if first && items == [] then [] else [COMMA]) + ObjectBytes(item)
    decreases |items|
  {
    if items == [] {
      assert items + [item] == [item] && [item][1..] == [];
      assert ObjectBytes(item) + [] == ObjectBytes(item);
    } else {
      assert (items + [item])[0] == items[0] && (items + [item])[1..] == items[1..] + [item];
      ItemsAppend(false, items[1..], item);
      var run := ObjectBytes(items[0]) + ItemsBytes(false, items[1..]);
      Regroup(ObjectBytes(items[0]), ItemsBytes(false, items[1..]), [COMMA], ObjectBytes(item));
      Regroup([COMMA], run, [COMMA], ObjectBytes(item));
    }
  }

  ghost predicate ItemsWritten(before: Text, items: seq<seq<Member>>, now: Text) {
    now == before + ItemsBytes(true, items)
  }

  lemma ItemsMore(before: Text, items: seq<seq<Member>>, now: Text, item: seq<Member>)
    requires ItemsWritten(before, items, now)
    ensures ItemsWritten(before, items + [item], now + (if items == [] then [] else [COMMA]) + ObjectBytes(item))
  {
    ItemsAppend(true, items, item);
    Regroup(before, ItemsBytes(true, items), if items == [] then [] else [COMMA], ObjectBytes(item));
  }

  lemma ClosedDocument(a: Text)
    ensures a + [CLOSE_BRACKET] + [CLOSE_BRACE] == a + [CLOSE_BRACKET, CLOSE_BRACE]
  {}

  lemma Braces(before: Text, body: Text)
    ensures before + [OPEN_BRACE] + body + [CLOSE_BRACE] == before + ([OPEN_BRACE] + body + [CLOSE_BRACE])
  {}

  method WriteLDItem(buf: Buffer, t: StructType, r: Record, path: Text, plan: LdPlan) returns (ok: bool)
    requires Fits(t, r) && plan == LdPlan(t.name, IdField(t, |t.fields|), LdFields(t, |t.fields|))
    modifies buf
    ensures ok == !HasEmptyForeignKey(t, r)
    ensures ok ==> buf.contents == old(buf.contents) + ObjectBytes(FastMembers(t, r, path))
  {
    Braces(buf.contents, Listed(true, FastMembers(t, r, path)));
    buf.Write([OPEN_BRACE]);
    ok := WriteLDBody(buf, t, r, path, plan, false);
    if ok { buf.Write([CLOSE_BRACE]); }
  }

  /** The first i records are written. */
  ghost predicate GraphUnderWay(t: StructType, rs: seq<Record>, path: Text, i: nat, items: seq<seq<Member>>) {
    && DataFits(Many(t, rs)) && |items| == i <= |rs|
    && forall k :: 0 <= k < i ==> !HasEmptyForeignKey(t, rs[k]) && items[k] == FastMembers(t, rs[k], path)
  }

  method WriteItems(buf: Buffer, t: StructType, rs: seq<Record>, path: Text, plan: LdPlan) returns (ok: bool)
    requires DataFits(Many(t, rs)) && plan == LdPlan(t.name, IdField(t, |t.fields|), LdFields(t, |t.fields|))
    modifies buf
    ensures ok == !LeftToMapPath(Many(t, rs))
    ensures ok ==> ItemsWritten(old(buf.contents), FastItems(t, rs, path), buf.contents)
  {
    ghost var items := [];
    NothingWritten(buf.contents);
    for i := 0 to |rs|
      invariant GraphUnderWay(t, rs, path, i, items)
      invariant ItemsWritten(old(buf.contents), items, buf.contents)
    {
      var done := WriteNextItem(buf, t, rs[i], path, plan, i == 0, old(buf.contents), items);
      if !done {
        GraphRefused(t, rs, i);
        return false;
      }
      GraphGoesOn(t, rs, path, i, items);
      items := items + [FastMembers(t, rs[i], path)];
    }
    GraphDone(t, rs, path, items);
    return true;
  }

  lemma NothingWritten(before: Text)
    ensures ItemsWritten(before, [], before)
  {}

  lemma GraphRefused(t: StructType, rs: seq<Record>, i: nat)
    requires DataFits(Many(t, rs)) && i < |rs| && HasEmptyForeignKey(t, rs[i])
    ensures LeftToMapPath(Many(t, rs))
  {}

  lemma GraphGoesOn(t: StructType, rs: seq<Record>, path: Text, i: nat, items: seq<seq<Member>>)
    requires i < |rs| && GraphUnderWay(t, rs, path, i, items) && !HasEmptyForeignKey(t, rs[i])
    ensures GraphUnderWay(t, rs, path, i + 1, items + [FastMembers(t, rs[i], path)])
  {}

  lemma GraphDone(t: StructType, rs: seq<Record>, path: Text, items: seq<seq<Member>>)
    requires GraphUnderWay(t, rs, path, |rs|, items)
    ensures items == FastItems(t, rs, path) && !LeftToMapPath(Many(t, rs))
  {}

  method WriteNextItem(buf: Buffer, t: StructType, r: Record, path: Text, plan: LdPlan, first: bool,
                       ghost before: Text, ghost items: seq<seq<Member>>) returns (ok: bool)
    requires Fits(t, r) && plan == LdPlan(t.name, IdField(t, |t.fields|), LdFields(t, |t.fields|))
    requires ItemsWritten(before, items, buf.contents) && (first <==> items == [])
    modifies buf
    ensures ok == !HasEmptyForeignKey(t, r)
    ensures ok ==> ItemsWritten(before, items + [FastMembers(t, r, path)], buf.contents)
  {
    ItemsMore(before, items, buf.contents, FastMembers(t, r, path));
    if !first {
      buf.Write([COMMA]);
    } else {
      assert buf.contents + [] == buf.contents;
    }
    ok := WriteLDItem(buf, t, r, path, plan);
  }

  /** fastSerializeLD: not handled exactly when some kept foreign key is empty. */
  method FastSerializeLD(data: Data, path: Text) returns (handled: bool, out: Text)
    requires DataFits(data)
    ensures handled == !LeftToMapPath(data)
    ensures handled ==> out == FastBytes(data, path)
  {
    var buf := new Buffer();
    assert [] + Opening() == Opening();
    buf.Write(Opening());
    var plan := GetLDPlan(data.t);
    match data {
      case One(t, r) => handled := WriteLDBody(buf, t, r, path, plan, true);
      case Many(t, rs) => handled := WriteGraph(buf, t, rs, path, plan);
    }
    buf.Write([CLOSE_BRACE]);
    out := buf.contents;
    if handled && data.Many? { ClosedDocument(Opening() + GraphOpening() + ItemsBytes(true, FastItems(data.t, data.rs, path))); }
  }

  method WriteGraph(buf: Buffer, t: StructType, rs: seq<Record>, path: Text, plan: LdPlan) returns (ok: bool)
    requires DataFits(Many(t, rs)) && plan == LdPlan(t.name, IdField(t, |t.fields|), LdFields(t, |t.fields|))
    modifies buf
    ensures ok == !LeftToMapPath(Many(t, rs))
    ensures ok ==> buf.contents == old(buf.contents) + GraphOpening() + ItemsBytes(true, FastItems(t, rs, path)) + [CLOSE_BRACKET]
  {
    buf.Write(GraphOpening());
    ok := WriteItems(buf, t, rs, path, plan);
    buf.Write([CLOSE_BRACKET]);
  }

  /** The map path's object for one record, context not yet added. */
  function MapItem(t: StructType, r: Record, path: Text): map<Text, Scalar>
    requires Fits(t, r)
  {
    MapOf(RewriteAll(MapMembers(t, r, path)))
  }

  function ContextMap(): map<Text, Json> {
    map[AT_CONTEXT := JText(SCHEMA_URL)]
  }

  function GraphMap(items: seq<Json>): map<Text, Json> {
    ContextMap()[AT_GRAPH := JArray(items)]
  }

  function MapItemObject(t: StructType, r: Record, path: Text): Json
    requires Fits(t, r)
  {
    JObject(JsonMap(MapItem(t, r, path)))
  }

  function MapItems(t: StructType, rs: seq<Record>, path: Text): seq<Json>
    requires DataFits(Many(t, rs))
  {
    seq(|rs|, i requires 0 <= i < |rs| => MapItemObject(t, rs[i], path))
  }

  /** What the map path denotes. */
  function MapDocument(data: Data, path: Text): Json
    requires DataFits(data)
  {
    match data
    case One(t, r) => JObject(ContextMap() + JsonMap(MapItem(t, r, path)))
    case Many(t, rs) => JObject(GraphMap(MapItems(t, rs, path)))
  }

  /** The objects of the first records: each ends its loop, and is the one
      object there is unless its keys clash. */
  ghost predicate SomeWrapped(t: StructType, rs: seq<Record>, path: Text, items: seq<Json>) {
    DataFits(Many(t, rs)) && |items| <= |rs| && forall k :: 0 <= k < |items| ==> Wrapped(t, rs[k], path, items[k])
  }

  ghost predicate Wrapped(t: StructType, r: Record, path: Text, item: Json) {
    && Fits(t, r) && (exists m :: CanEnd(MapOf(MapMembers(t, r, path)), m) && item == JObject(JsonMap(m)))
    && (NoClash(MapMembers(t, r, path)) ==> item == MapItemObject(t, r, path))
  }

  /** A document of the map path: the context, and the record's members or the
      records' objects. */
  ghost predicate IsDocument(data: Data, path: Text, result: map<Text, Json>) {
    match data
    case One(t, r) => |r| == |t.fields| && exists m :: CanEnd(MapOf(MapMembers(t, r, path)), m) && result == ContextMap() + JsonMap(m)
    case Many(t, rs) => exists items :: |items| == |rs| && SomeWrapped(t, rs, path, items) && result == GraphMap(items)
  }

  lemma OneMoreHolds(items: seq<Json>, item: Json, holds: (nat, Json) -> bool)
    requires (forall k: nat :: k < |items| ==> holds(k, items[k])) && holds(|items|, item)
    ensures forall k: nat :: k < |items + [item]| ==> holds(k, (items + [item])[k])
  {}

  lemma OneMoreWrapped(t: StructType, rs: seq<Record>, path: Text, items: seq<Json>, item: Json)
    requires SomeWrapped(t, rs, path, items) && |items| < |rs| && Wrapped(t, rs[|items|], path, item)
    ensures SomeWrapped(t, rs, path, items + [item])
  {
    OneMoreHolds(items, item, (k: nat, j) => k < |rs| && Wrapped(t, rs[k], path, j));
  }

  lemma AllWrapped(t: StructType, rs: seq<Record>, path: Text, items: seq<Json>)
    requires SomeWrapped(t, rs, path, items) && |items| == |rs| && NothingClashes(Many(t, rs), path)
    ensures items == MapItems(t, rs, path)
  {}

  ghost predicate NothingClashes(data: Data, path: Text)
    requires DataFits(data)
  {
    match data
    case One(t, r) => NoClash(MapMembers(t, r, path))
    case Many(t, rs) => forall i :: 0 <= i < |rs| ==> NoClash(MapMembers(t, rs[i], path))
  }

  method WrapItems(t: StructType, rs: seq<Record>, path: Text) returns (items: seq<Json>)
    requires DataFits(Many(t, rs))
    ensures |items| == |rs| && SomeWrapped(t, rs, path, items)
  {
    items := [];
    for i := 0 to |rs|
      invariant |items| == i && SomeWrapped(t, rs, path, items)
    {
      var item := AddTypeToItem(t, rs[i], path);
      OneMoreWrapped(t, rs, path, items, JObject(JsonMap(item)));
      items := items + [JObject(JsonMap(item))];
    }
  }

  method WrapWithContext(data: Data, path: Text) returns (result: map<Text, Json>)
    requires DataFits(data)
    ensures IsDocument(data, path, result)
    ensures NothingClashes(data, path) ==> JObject(result) == MapDocument(data, path)
  {
    result := map[AT_CONTEXT := JText(SCHEMA_URL)];
    match data {
      case Many(t, rs) =>
        var items := WrapItems(t, rs, path);
        if NothingClashes(data, path) { AllWrapped(t, rs, path, items); }
        result := result[AT_GRAPH := JArray(items)];
      case One(t, r) =>
        var item := AddTypeToItem(t, r, path);
        result := result + JsonMap(item);
    }
  }
}
