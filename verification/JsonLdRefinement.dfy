/** The streaming path refines the map path: what it writes is read as the very
    object the map path builds. */
module JsonLdRefinement {
  import opened JsonStrings
  import opened Utf8Texts
  import opened JsonValues
  import opened JsonLd
  import opened JsonLdMaps
  import opened JsonLdEncoding

  predicate Apart(a: seq<Member>, b: seq<Member>) {
    forall i, j :: 0 <= i < |a| && 0 <= j < |b| ==> a[i].0 != b[j].0
  }

  lemma DistinctParts(a: seq<Member>, b: seq<Member>)
    ensures DistinctKeys(a + b) <==> DistinctKeys(a) && DistinctKeys(b) && Apart(a, b)
  {
    var c := a + b;
    if DistinctKeys(c) {
      forall i, j | 0 <= i < j < |a| ensures a[i].0 != a[j].0 { assert c[i].0 != c[j].0; }
      forall i, j | 0 <= i < j < |b| ensures b[i].0 != b[j].0 { assert c[|a| + i].0 != c[|a| + j].0; }
      forall i, j | 0 <= i < |a| && 0 <= j < |b| ensures a[i].0 != b[j].0 { assert c[i].0 != c[|a| + j].0; }
    }
  }

  lemma {:induction false} MapOfConcat(a: seq<Member>, b: seq<Member>)
    ensures MapOf(a + b) == MapOf(a) + MapOf(b)
  {
    if b == [] {
      assert a + b == a;
    } else {
      var n := |b| - 1;
      MapOfConcat(a, b[..n]);
      assert (a + b)[..|a + b| - 1] == a + b[..n];
    }
  }

  lemma {:induction false} MapOfKeys(a: seq<Member>, key: Text)
    ensures key in MapOf(a) <==> exists i :: 0 <= i < |a| && a[i].0 == key
  {
    if a != [] {
      var n := |a| - 1;
      MapOfKeys(a[..n], key);
      if key in MapOf(a[..n]) {
        var i :| 0 <= i < n && a[..n][i].0 == key;
        assert a[i].0 == key;
      }
      if i :| 0 <= i < |a| && a[i].0 == key {
        if i < n { assert a[..n][i].0 == key; }
      }
    }
  }

  lemma MapOfSwap(a: seq<Member>, b: seq<Member>)
    requires Apart(a, b)
    ensures MapOf(a + b) == MapOf(b + a)
  {
    MapOfConcat(a, b);
    MapOfConcat(b, a);
    forall k ensures !(k in MapOf(a) && k in MapOf(b)) {
      MapOfKeys(a, k);
      MapOfKeys(b, k);
    }
    assert MapOf(a) + MapOf(b) == MapOf(b) + MapOf(a);
  }

  // --------------------------------------------------- when both paths agree

  /** At most one field is named id. */
  predicate OneId(t: StructType) {
    forall i, j :: 0 <= i < j < |t.fields| && Shown(t.fields[i]) && Shown(t.fields[j]) && JsonKey(t.fields[i]) == ID ==> JsonKey(t.fields[j]) != ID
  }

  /** Output keys are distinct, and no relation name is shaped like a foreign
      key itself. */
  ghost predicate NamesClear(t: StructType, r: Record, path: Text)
    requires |t.fields| == |r|
  {
    && OneId(t) && DistinctKeys([CONTEXT] + FastMembers(t, r, path)) && DistinctKeys(RawMembers(t, r, |r|))
    && forall m :: m in RawMembers(t, r, |r|) && Rewrites(m) ==> !IsForeignKey(RelationName(m.0))
  }

  /** The id is not dropped for being empty while it would still be shown. */
  predicate IdKept(t: StructType, r: Record)
    requires |t.fields| == |r|
  {
    var i := IdField(t, |t.fields|);
    i >= 0 ==> Kept(t.fields[i], r[i]) || Display(r[i]) == []
  }

  lemma {:induction false} RawMembersAre(t: StructType, r: Record, n: nat, m: Member)
    requires n <= |t.fields| == |r|
    ensures m in RawMembers(t, r, n) <==>
      exists i :: 0 <= i < n && Kept(t.fields[i], r[i]) && m == (JsonKey(t.fields[i]), r[i])
  {
    if n > 0 {
      RawMembersAre(t, r, n - 1, m);
      if Kept(t.fields[n - 1], r[n - 1]) {
        var last := (JsonKey(t.fields[n - 1]), r[n - 1]);
        assert m in RawMembers(t, r, n) <==> m in RawMembers(t, r, n - 1) || m == last;
      } else {
        assert RawMembers(t, r, n) == RawMembers(t, r, n - 1);
      }
    }
  }

  lemma {:induction false} IdFieldIsOnly(t: StructType, n: nat)
    requires n <= |t.fields| && OneId(t)
    ensures forall i :: 0 <= i < n && Shown(t.fields[i]) && JsonKey(t.fields[i]) == ID ==> i == IdField(t, n)
  {
    if n > 0 { IdFieldIsOnly(t, n - 1); }
  }

  /** The map path shows the id field's value if that field is kept. */
  lemma MapIdIs(t: StructType, r: Record)
    requires |t.fields| == |r| && OneId(t) && DistinctKeys(RawMembers(t, r, |r|))
    ensures
      var i := IdField(t, |t.fields|);
      MapId(MapOf(RawMembers(t, r, |r|))) == if i >= 0 && Kept(t.fields[i], r[i]) then Display(r[i]) else []
  {
    var raw, i := RawMembers(t, r, |r|), IdField(t, |t.fields|);
    IdFieldIsOnly(t, |r|);
    MapOfMembers(raw);
    if i >= 0 && Kept(t.fields[i], r[i]) {
      RawMembersAre(t, r, |r|, (ID, r[i]));
      assert (ID, r[i]) in raw;
    } else {
      forall k | 0 <= k < |raw| ensures raw[k].0 != ID { RawMembersAre(t, r, |r|, raw[k]); }
      MapOfKeys(raw, ID);
    }
  }

  lemma RewriteConcat(a: seq<Member>, b: seq<Member>)
    ensures RewriteAll(a + b) == RewriteAll(a) + RewriteAll(b)
  {}

  lemma TypeAndIdStay(t: StructType, id: Text, path: Text)
    ensures RewriteAll(TypeMembers(t)) == TypeMembers(t) && RewriteAll(IdMembers(id, path)) == IdMembers(id, path)
  {
    KeysDiffer();
  }

  /** What the map path's members become. */
  lemma MapMembersRewritten(t: StructType, r: Record, path: Text, id: Text)
    requires |t.fields| == |r| && id == MapId(MapOf(RawMembers(t, r, |r|)))
    ensures RewriteAll(MapMembers(t, r, path)) == RewriteAll(RawMembers(t, r, |r|)) + (TypeMembers(t) + IdMembers(id, path))
  {
    var raw := RawMembers(t, r, |r|);
    RewriteConcat(raw + TypeMembers(t), IdMembers(id, path));
    RewriteConcat(raw, TypeMembers(t));
    TypeAndIdStay(t, id, path);
  }

  /** Dropping the id, or nothing, keeps keys distinct. */
  lemma OutputIsDistinct(t: StructType, a: seq<Member>, id: Text, fewer: Text, path: Text)
    requires DistinctKeys([CONTEXT] + (TypeMembers(t) + IdMembers(id, path) + a)) && (fewer == id || fewer == [])
    ensures DistinctKeys(a + (TypeMembers(t) + IdMembers(fewer, path))) && Apart(a, TypeMembers(t) + IdMembers(id, path))
  {
    var head := TypeMembers(t) + IdMembers(id, path);
    DistinctParts([CONTEXT], head + a);
    DistinctParts(head, a);
    DistinctParts(TypeMembers(t), IdMembers(id, path));
    var less := TypeMembers(t) + IdMembers(fewer, path);
    DistinctParts(TypeMembers(t), IdMembers(fewer, path));
    forall i, j | 0 <= i < |a| && 0 <= j < |head| ensures a[i].0 != head[j].0 { assert head[j].0 != a[i].0; }
    if fewer == [] { assert less == TypeMembers(t); forall j | 0 <= j < |less| ensures head[j] == less[j] {} }
    DistinctParts(a, less);
  }

  /** Original names stay distinct beside @type and @id. */
  lemma OriginalIsDistinct(t: StructType, raw: seq<Member>, id: Text, path: Text)
    requires DistinctKeys(raw) && DistinctKeys(RewriteAll(raw) + (TypeMembers(t) + IdMembers(id, path)))
    ensures DistinctKeys(raw + TypeMembers(t) + IdMembers(id, path))
  {
    var a, less := RewriteAll(raw), TypeMembers(t) + IdMembers(id, path);
    KeysDiffer();
    DistinctParts(a, less);
    forall i, j | 0 <= i < |raw| && 0 <= j < |less| ensures raw[i].0 != less[j].0 {
      assert a[i] == Rewrite(raw[i]);
      assert less[j].0 == AT_TYPE || less[j].0 == AT_ID;
    }
    DistinctParts(raw, less);
    assert raw + TypeMembers(t) + IdMembers(id, path) == raw + less;
  }

  /** The map path's loop meets its conditions. */
  lemma ClearMeansNoClash(t: StructType, r: Record, path: Text)
    requires Fits(t, r) && NamesClear(t, r, path)
    ensures NoClash(MapMembers(t, r, path))
  {
    var raw := RawMembers(t, r, |r|);
    var id := MapId(MapOf(raw));
    MapIdIs(t, r);
    MapMembersRewritten(t, r, path, id);
    OutputIsDistinct(t, RewriteAll(raw), FastId(t, r), id, path);
    OriginalIsDistinct(t, raw, id, path);
    KeysDiffer();
    forall m | m in MapMembers(t, r, path) && Rewrites(m) ensures !IsForeignKey(RelationName(m.0)) {
      assert m in raw;
    }
  }

  /** One record: both paths have the same members exactly when the id is kept. */
  lemma ItemsAgree(t: StructType, r: Record, path: Text)
    requires Fits(t, r) && NamesClear(t, r, path)
    ensures MapOf(FastMembers(t, r, path)) == MapItem(t, r, path) <==> IdKept(t, r)
    ensures !IdKept(t, r) ==> AT_ID in MapOf(FastMembers(t, r, path)) && AT_ID !in MapItem(t, r, path)
  {
    var raw := RawMembers(t, r, |r|);
    var a, id, fid := RewriteAll(raw), MapId(MapOf(raw)), FastId(t, r);
    MapIdIs(t, r);
    MapMembersRewritten(t, r, path, id);
    OutputIsDistinct(t, a, fid, id, path);
    if id == fid {
      MapOfSwap(a, TypeMembers(t) + IdMembers(id, path));
    } else {
      IdIsMissing(t, a, fid, path);
    }
  }

  lemma IdIsMissing(t: StructType, a: seq<Member>, fid: Text, path: Text)
    requires fid != [] && Apart(a, TypeMembers(t) + IdMembers(fid, path))
    ensures AT_ID in MapOf(TypeMembers(t) + IdMembers(fid, path) + a)
    ensures AT_ID !in MapOf(a + (TypeMembers(t) + IdMembers([], path)))
  {
    var head := TypeMembers(t) + IdMembers(fid, path);
    KeysDiffer();
    MapOfKeys(head + a, AT_ID);
    assert (head + a)[|TypeMembers(t)|].0 == AT_ID;
    var less := a + (TypeMembers(t) + IdMembers([], path));
    MapOfKeys(less, AT_ID);
    forall i | 0 <= i < |less| ensures less[i].0 != AT_ID {
      if i < |a| { assert a[i].0 != head[|TypeMembers(t)|].0; }
    }
  }

  // --------------------------------------------------- reading what was written

  lemma {:induction false} RawIsValid(t: StructType, r: Record, n: nat)
    requires Fits(t, r) && n <= |r|
    ensures ValidMembers(RawMembers(t, r, n))
  {
    if n > 0 { RawIsValid(t, r, n - 1); }
  }

  lemma FastIsValid(t: StructType, r: Record, path: Text)
    requires Fits(t, r)
    ensures ValidMembers(FastMembers(t, r, path))
  {
    RawIsValid(t, r, |r|);
  }

  lemma ContextIsSafe()
    ensures Escape(AT_CONTEXT) == AT_CONTEXT && Escape(AT_GRAPH) == AT_GRAPH
  {
    SafeIsUnchanged(AT_CONTEXT);
    SafeIsUnchanged(AT_GRAPH);
  }

  lemma UrlIsSafe()
    ensures Escape(SCHEMA_URL) == SCHEMA_URL
  {
    SafeIsUnchanged(SCHEMA_URL);
  }

  lemma OpeningIsContext()
    ensures Opening() == [OPEN_BRACE] + MemberBytes(CONTEXT)
  {
    ContextIsSafe();
    UrlIsSafe();
    PairInPieces(AT_CONTEXT, SCHEMA_URL);
  }

  lemma PairInPieces(name: Text, text: Text)
    ensures [OPEN_BRACE, QUOTE] + name + [QUOTE, COLON, QUOTE] + text + [QUOTE]
            == [OPEN_BRACE] + (([QUOTE] + name + [QUOTE]) + [COLON] + ([QUOTE] + text + [QUOTE]))
  {}

  lemma ListedFirst(m: Member, ms: seq<Member>)
    ensures Listed(true, [m] + ms) == MemberBytes(m) + Listed(false, ms)
  {
    assert ([m] + ms)[1..] == ms;
  }

  /** A single record's document is the object of the context and its members. */
  lemma OneIsObject(t: StructType, r: Record, path: Text)
    requires Fits(t, r)
    ensures FastBytes(One(t, r), path) == ObjectBytes([CONTEXT] + FastMembers(t, r, path))
  {
    var ms := FastMembers(t, r, path);
    OpeningIsContext();
    ListedFirst(CONTEXT, ms);
    Regroup([OPEN_BRACE], MemberBytes(CONTEXT), Listed(false, ms), [CLOSE_BRACE]);
    FlattenObject([OPEN_BRACE], MemberBytes(CONTEXT), Listed(false, ms), [CLOSE_BRACE]);
  }

  lemma FlattenObject(a: Text, b: Text, c: Text, d: Text)
    ensures a + (b + c) + d == (a + b) + c + d
  {}

  lemma OneReads(t: StructType, r: Record, path: Text)
    requires Fits(t, r)
    ensures ReadValue(FastBytes(One(t, r), path)) == Done(JObject(JsonMap(MapOf([CONTEXT] + FastMembers(t, r, path)))), [])
  {
    var ms := [CONTEXT] + FastMembers(t, r, path);
    FastIsValid(t, r, path);
    OneIsObject(t, r, path);
    assert ObjectBytes(ms) + [] == ObjectBytes(ms);
    ObjectReadsBack(ms, [], FastBytes(One(t, r), path));
    ObjectIsMap(ms);
  }

  lemma ContextFirst(ms: seq<Member>)
    ensures JsonMap(MapOf([CONTEXT] + ms)) == ContextMap() + JsonMap(MapOf(ms))
  {
    MapOfConcat([CONTEXT], ms);
    assert [CONTEXT][..0] == [];
    assert MapOf([CONTEXT]) == map[AT_CONTEXT := Plain(SCHEMA_URL)];
  }

  /** One record: the streamed bytes are read as the map path's object exactly
      when the id is kept. */
  lemma OneRefines(t: StructType, r: Record, path: Text)
    requires Fits(t, r) && NamesClear(t, r, path)
    ensures ReadValue(FastBytes(One(t, r), path)) == Done(MapDocument(One(t, r), path), []) <==> IdKept(t, r)
  {
    OneReads(t, r, path);
    ContextFirst(FastMembers(t, r, path));
    ItemsAgree(t, r, path);
    if !IdKept(t, r) {
      KeysDiffer();
      KeyTellsApart(ContextMap(), MapOf(FastMembers(t, r, path)), MapItem(t, r, path), AT_ID);
    }
  }

  lemma KeyTellsApart(c: map<Text, Json>, a: map<Text, Scalar>, b: map<Text, Scalar>, key: Text)
    requires key in a && key !in b && key !in c
    ensures c + JsonMap(a) != c + JsonMap(b)
  {
    assert key in c + JsonMap(a) && key !in c + JsonMap(b);
  }

  // --------------------------------------------------- many records

  function ObjectsOf(items: seq<seq<Member>>): seq<Json> {
    seq(|items|, i requires 0 <= i < |items| => ObjectOf(items[i]))
  }

  predicate ValidItems(items: seq<seq<Member>>) {
    forall i :: 0 <= i < |items| ==> ValidMembers(items[i])
  }

  /** What stands behind the first object of an array. */
  lemma FirstItem(items: seq<seq<Member>>, rest: Text) returns (w: Text)
    requires items != []
    ensures ItemsBytes(true, items) + [CLOSE_BRACKET] + rest == ObjectBytes(items[0]) + w
    ensures if |items| == 1 then w == [CLOSE_BRACKET] + rest && w[1..] == rest
            else w != [] && w[0] == COMMA && w[1..] == ItemsBytes(true, items[1..]) + [CLOSE_BRACKET] + rest
  {
    w := ItemsBytes(false, items[1..]) + [CLOSE_BRACKET] + rest;
    Regroup(ObjectBytes(items[0]), ItemsBytes(false, items[1..]), [CLOSE_BRACKET], rest);
    if |items| > 1 { BehindComma(ItemsBytes(true, items[1..]), [CLOSE_BRACKET], rest); }
  }

  lemma {:induction false} ItemsReadBack(items: seq<seq<Member>>, sofar: seq<Json>, rest: Text, t: Text)
    requires items != [] && ValidItems(items) && t == ItemsBytes(true, items) + [CLOSE_BRACKET] + rest
    ensures ReadItems(t, sofar) == Done(JArray(sofar + ObjectsOf(items)), rest)
    decreases |items|
  {
    var w := FirstItem(items, rest);
    ObjectReadsBack(items[0], w, t);
    ItemStep(t, sofar, ObjectOf(items[0]), w);
    if |items| > 1 {
      ItemsReadBack(items[1..], sofar + [ObjectOf(items[0])], rest, w[1..]);
      assert sofar + [ObjectOf(items[0])] + ObjectsOf(items[1..]) == sofar + ObjectsOf(items);
    } else {
      assert [ObjectOf(items[0])] == ObjectsOf(items);
    }
  }

  function ArrayBytes(items: seq<seq<Member>>): Text {
    [OPEN_BRACKET] + ItemsBytes(true, items) + [CLOSE_BRACKET]
  }

  lemma ArrayStarts(items: seq<seq<Member>>, rest: Text, t: Text)
    requires t == ArrayBytes(items) + rest
    ensures |t| > 1 && t[0] == OPEN_BRACKET && t[1..] == ItemsBytes(true, items) + [CLOSE_BRACKET] + rest
    ensures items != [] ==> t[1] == OPEN_BRACE
  {
    FlattenArray(ItemsBytes(true, items), rest);
    if items != [] { assert ObjectBytes(items[0])[0] == OPEN_BRACE; }
  }

  lemma FlattenArray(items: Text, rest: Text)
    ensures [OPEN_BRACKET] + items + [CLOSE_BRACKET] + rest == [OPEN_BRACKET] + (items + [CLOSE_BRACKET] + rest)
  {}

  lemma EmptyArray(rest: Text, t: Text)
    requires t == ArrayBytes([]) + rest
    ensures ReadValue(t) == Done(JArray([]), rest)
  {
    assert t == [OPEN_BRACKET, CLOSE_BRACKET] + rest;
    assert t[2..] == rest;
  }

  lemma ArrayReadsBack(items: seq<seq<Member>>, rest: Text, t: Text)
    requires ValidItems(items) && t == ArrayBytes(items) + rest
    ensures ReadValue(t) == Done(JArray(ObjectsOf(items)), rest)
  {
    if items == [] {
      EmptyArray(rest, t);
      assert ObjectsOf(items) == [];
    } else {
      ArrayStarts(items, rest, t);
      ItemsReadBack(items, [], rest, t[1..]);
      assert [] + ObjectsOf(items) == ObjectsOf(items);
      ArrayValue(t, JArray(ObjectsOf(items)), rest);
    }
  }

  /** The two members of a graph document. */
  lemma GraphPieces(items: seq<seq<Member>>)
    ensures Opening() + GraphOpening() + ItemsBytes(true, items) + [CLOSE_BRACKET, CLOSE_BRACE]
            == [OPEN_BRACE] + (MemberBytes(CONTEXT) + ([COMMA] + (Quoted(AT_GRAPH) + ([COLON] + (ArrayBytes(items) + [CLOSE_BRACE])))))
  {
    OpeningIsContext();
    ContextIsSafe();
    GraphInPieces(MemberBytes(CONTEXT), AT_GRAPH, ItemsBytes(true, items));
  }

  lemma GraphInPieces(context: Text, name: Text, items: Text)
    ensures ([OPEN_BRACE] + context) + ([COMMA, QUOTE] + name + [QUOTE, COLON, OPEN_BRACKET]) + items + [CLOSE_BRACKET, CLOSE_BRACE]
            == [OPEN_BRACE] + (context + ([COMMA] + (([QUOTE] + name + [QUOTE]) + ([COLON] + (([OPEN_BRACKET] + items + [CLOSE_BRACKET]) + [CLOSE_BRACE])))))
  {
    var a := [OPEN_BRACE] + context + [COMMA, QUOTE] + name + [QUOTE, COLON, OPEN_BRACKET] + items + [CLOSE_BRACKET, CLOSE_BRACE];
    assert ([OPEN_BRACE] + context) + ([COMMA, QUOTE] + name + [QUOTE, COLON, OPEN_BRACKET]) + items + [CLOSE_BRACKET, CLOSE_BRACE] == a;
    var tail := [COLON] + (([OPEN_BRACKET] + items + [CLOSE_BRACKET]) + [CLOSE_BRACE]);
    assert tail == [COLON, OPEN_BRACKET] + items + [CLOSE_BRACKET, CLOSE_BRACE];
    assert [COMMA] + (([QUOTE] + name + [QUOTE]) + tail) == [COMMA, QUOTE] + name + [QUOTE, COLON, OPEN_BRACKET] + items + [CLOSE_BRACKET, CLOSE_BRACE];
  }

  /** Behind the context: the graph member, which ends the object. */
  lemma GraphMemberReads(items: seq<seq<Member>>, sofar: map<Text, Json>, u: Text)
    requires ValidItems(items) && u == Quoted(AT_GRAPH) + ([COLON] + (ArrayBytes(items) + [CLOSE_BRACE]))
    ensures ReadMembers(u, sofar) == Done(JObject(sofar[AT_GRAPH := JArray(ObjectsOf(items))]), [])
  {
    var arr := ArrayBytes(items) + [CLOSE_BRACE];
    var behind := [COLON] + arr;
    QuotedReadsBack(AT_GRAPH, behind);
    ArrayReadsBack(items, [CLOSE_BRACE], arr);
    assert behind[1..] == arr;
    MemberStep(u, sofar, AT_GRAPH, behind, JArray(ObjectsOf(items)), [CLOSE_BRACE]);
    assert [CLOSE_BRACE][1..] == [];
  }

  lemma GraphReads(items: seq<seq<Member>>, t: Text)
    requires ValidItems(items) && t == Opening() + GraphOpening() + ItemsBytes(true, items) + [CLOSE_BRACKET, CLOSE_BRACE]
    ensures ReadValue(t) == Done(JObject(GraphMap(ObjectsOf(items))), [])
  {
    var u := Quoted(AT_GRAPH) + ([COLON] + (ArrayBytes(items) + [CLOSE_BRACE]));
    var w := [COMMA] + u;
    GraphPieces(items);
    assert t == [OPEN_BRACE] + (MemberBytes(CONTEXT) + w);
    assert t[1..] == MemberBytes(CONTEXT) + w && w[1..] == u;
    MemberReadsBack(CONTEXT, map[], w, t[1..]);
    GraphMemberReads(items, ContextMap(), u);
    assert t[1] == MemberBytes(CONTEXT)[0] == QUOTE;
    ObjectValue(t, JObject(GraphMap(ObjectsOf(items))), []);
  }

  // --------------------------------------------------- main result

  ghost predicate AllClear(data: Data, path: Text)
    requires DataFits(data)
  {
    match data
    case One(t, r) => NamesClear(t, r, path)
    case Many(t, rs) => forall i :: 0 <= i < |rs| ==> NamesClear(t, rs[i], path)
  }

  predicate AllIdsKept(data: Data)
    requires DataFits(data)
  {
    match data
    case One(t, r) => IdKept(t, r)
    case Many(t, rs) => forall i :: 0 <= i < |rs| ==> IdKept(t, rs[i])
  }

  lemma ObjectAgrees(t: StructType, r: Record, path: Text)
    requires Fits(t, r) && NamesClear(t, r, path)
    ensures ObjectOf(FastMembers(t, r, path)) == MapItemObject(t, r, path) <==> IdKept(t, r)
  {
    ObjectIsMap(FastMembers(t, r, path));
    ItemsAgree(t, r, path);
    if !IdKept(t, r) {
      assert AT_ID in JsonMap(MapOf(FastMembers(t, r, path))) && AT_ID !in JsonMap(MapItem(t, r, path));
    }
  }

  lemma GraphTellsApart(a: seq<Json>, b: seq<Json>)
    ensures GraphMap(a) == GraphMap(b) <==> a == b
  {
    assert GraphMap(a)[AT_GRAPH] == JArray(a) && GraphMap(b)[AT_GRAPH] == JArray(b);
  }

  lemma ManyRefines(t: StructType, rs: seq<Record>, path: Text)
    requires DataFits(Many(t, rs)) && AllClear(Many(t, rs), path)
    ensures ReadValue(FastBytes(Many(t, rs), path)) == Done(MapDocument(Many(t, rs), path), []) <==> AllIdsKept(Many(t, rs))
  {
    var items := FastItems(t, rs, path);
    ItemsAreValid(t, rs, path);
    GraphReads(items, FastBytes(Many(t, rs), path));
    GraphTellsApart(ObjectsOf(items), MapItems(t, rs, path));
    ObjectsAgree(t, rs, path);
  }

  lemma ItemsAreValid(t: StructType, rs: seq<Record>, path: Text)
    requires DataFits(Many(t, rs))
    ensures ValidItems(FastItems(t, rs, path))
  {
    var items := FastItems(t, rs, path);
    forall i | 0 <= i < |items| ensures ValidMembers(items[i]) { FastIsValid(t, rs[i], path); }
  }

  lemma ObjectsAgree(t: StructType, rs: seq<Record>, path: Text)
    requires DataFits(Many(t, rs)) && AllClear(Many(t, rs), path)
    ensures ObjectsOf(FastItems(t, rs, path)) == MapItems(t, rs, path) <==> AllIdsKept(Many(t, rs))
  {
    var a, b := ObjectsOf(FastItems(t, rs, path)), MapItems(t, rs, path);
    forall i | 0 <= i < |rs| ensures a[i] == b[i] <==> IdKept(t, rs[i]) { ObjectAgrees(t, rs[i], path); }
    if a == b {
      forall i | 0 <= i < |rs| ensures IdKept(t, rs[i]) { assert a[i] == b[i]; }
    }
  }

  // --------------------------------------------------- encoding

  /** The names and texts of the streamed members. */
  predicate TextsAreUtf8(data: Data, path: Text)
    requires DataFits(data)
  {
    match data
    case One(t, r) => AllUtf8(FastMembers(t, r, path))
    case Many(t, rs) => ItemsUtf8(FastItems(t, rs, path))
  }

  lemma FastBytesUtf8(data: Data, path: Text)
    requires DataFits(data)
    ensures ValidUtf8(FastBytes(data, path)) <==> TextsAreUtf8(data, path)
  {
    ContextIsUtf8();
    match data
    case One(t, r) => OneUtf8(t, r, path);
    case Many(t, rs) =>
      ItemsAreValid(t, rs, path);
      GraphUtf8(FastItems(t, rs, path));
  }

  lemma OneUtf8(t: StructType, r: Record, path: Text)
    requires Fits(t, r)
    ensures ValidUtf8(FastBytes(One(t, r), path)) <==> AllUtf8(FastMembers(t, r, path))
  {
    FastIsValid(t, r, path);
    OneIsObject(t, r, path);
    ContextIsUtf8();
    FirstMemberUtf8(CONTEXT, FastMembers(t, r, path));
  }

  lemma FirstMemberUtf8(m: Member, ms: seq<Member>)
    requires MemberUtf8(m) && ValidMembers([m] + ms)
    ensures ValidUtf8(ObjectBytes([m] + ms)) <==> AllUtf8(ms)
  {
    ObjectUtf8([m] + ms, []);
    PartIsUtf8([m], ms);
    assert ObjectBytes([m] + ms) + [] == ObjectBytes([m] + ms);
  }

  lemma GraphUtf8(items: seq<seq<Member>>)
    requires ValidItems(items)
    ensures ValidUtf8(Opening() + GraphOpening() + ItemsBytes(true, items) + [CLOSE_BRACKET, CLOSE_BRACE]) <==> ItemsUtf8(items)
  {
    var end := [CLOSE_BRACKET, CLOSE_BRACE];
    Regroup([], Opening() + GraphOpening(), ItemsBytes(true, items), end);
    OpeningIsAscii();
    Utf8BehindAscii(Opening() + GraphOpening(), ItemsBytes(true, items) + end);
    ItemsBytesUtf8(true, items, end);
    AsciiIsUtf8(end);
    assert Opening() + GraphOpening() + ItemsBytes(true, items) + end == (Opening() + GraphOpening()) + (ItemsBytes(true, items) + end);
  }

  lemma OpeningIsAscii()
    ensures IsAscii(Opening() + GraphOpening())
  {}

  lemma {:induction false} PartIsUtf8(a: seq<Member>, b: seq<Member>)
    ensures AllUtf8(a + b) <==> AllUtf8(a) && AllUtf8(b)
  {
    var c := a + b;
    if AllUtf8(c) {
      forall i | 0 <= i < |a| ensures MemberUtf8(a[i]) { assert c[i] == a[i]; }
      forall i | 0 <= i < |b| ensures MemberUtf8(b[i]) { assert c[|a| + i] == b[i]; }
    }
  }

  /** The map path shows no text the streaming path does not show. */
  lemma MapItemWellFormed(t: StructType, r: Record, path: Text)
    requires Fits(t, r) && NamesClear(t, r, path) && AllUtf8(FastMembers(t, r, path))
    ensures WellFormed(MapItemObject(t, r, path))
  {
    var raw := RawMembers(t, r, |r|);
    var id, fid := MapId(MapOf(raw)), FastId(t, r);
    MapIdIs(t, r);
    MapMembersRewritten(t, r, path, id);
    FewerUtf8(TypeMembers(t), IdMembers(fid, path), RewriteAll(raw), IdMembers(id, path));
    RawIsValid(t, r, |r|);
    MapIsWellFormed(RewriteAll(MapMembers(t, r, path)));
  }

  lemma FewerUtf8(a: seq<Member>, b: seq<Member>, c: seq<Member>, b': seq<Member>)
    requires AllUtf8(a + b + c) && (b' == b || b' == [])
    ensures AllUtf8(c + (a + b'))
  {
    PartIsUtf8(a + b, c);
    PartIsUtf8(a, b);
    PartIsUtf8(a, b');
    PartIsUtf8(c, a + b');
  }

  lemma ContextWellFormed()
    ensures WellFormed(JObject(ContextMap()))
  {
    ContextIsUtf8();
  }

  lemma UnionWellFormed(a: map<Text, Json>, b: map<Text, Json>)
    requires WellFormed(JObject(a)) && WellFormed(JObject(b))
    ensures WellFormed(JObject(a + b))
  {}

  lemma AddedWellFormed(members: map<Text, Json>, key: Text, value: Json)
    requires WellFormed(JObject(members)) && ValidUtf8(key) && WellFormed(value)
    ensures WellFormed(JObject(members[key := value]))
  {}

  lemma GraphWellFormed(items: seq<Json>)
    requires forall i :: 0 <= i < |items| ==> WellFormed(items[i])
    ensures WellFormed(JObject(GraphMap(items)))
  {
    ContextIsUtf8();
    ContextWellFormed();
    AddedWellFormed(ContextMap(), AT_GRAPH, JArray(items));
  }

  lemma MapDocumentWellFormed(data: Data, path: Text)
    requires DataFits(data) && AllClear(data, path) && TextsAreUtf8(data, path)
    ensures WellFormed(MapDocument(data, path))
  {
    match data
    case One(t, r) =>
      MapItemWellFormed(t, r, path);
      ContextWellFormed();
      UnionWellFormed(ContextMap(), JsonMap(MapItem(t, r, path)));
    case Many(t, rs) =>
      ItemsWellFormed(t, rs, path);
      GraphWellFormed(MapItems(t, rs, path));
  }

  lemma ItemsWellFormed(t: StructType, rs: seq<Record>, path: Text)
    requires DataFits(Many(t, rs)) && AllClear(Many(t, rs), path) && ItemsUtf8(FastItems(t, rs, path))
    ensures forall i :: 0 <= i < |rs| ==> WellFormed(MapItems(t, rs, path)[i])
  {
    forall i | 0 <= i < |rs| ensures WellFormed(MapItems(t, rs, path)[i]) {
      assert AllUtf8(FastItems(t, rs, path)[i]);
      MapItemWellFormed(t, rs[i], path);
    }
  }

  /** Main result: where the streaming path answers, its bytes denote what the map
      path's encoder writes exactly when no shown id is dropped for being empty
      and every name and text shown is UTF-8. */
  lemma FastPathRefinesMapPath(data: Data, path: Text)
    requires DataFits(data) && AllClear(data, path)
    ensures Denotes(FastBytes(data, path), Marshalled(MapDocument(data, path))) <==> AllIdsKept(data) && TextsAreUtf8(data, path)
  {
    FastBytesUtf8(data, path);
    if TextsAreUtf8(data, path) {
      MapDocumentWellFormed(data, path);
      MarshalledKeeps(MapDocument(data, path));
      match data
      case One(t, r) => OneRefines(t, r, path);
      case Many(t, rs) => ManyRefines(t, rs, path);
    }
  }

  /** A type whose only field is a number tagged as an id that may be omitted. */
  const OMITTED_ID: StructType := StructType([], [StructField(ID, true, ID + [COMMA] + OMITEMPTY, false)])

  lemma OmittedIdTag()
    ensures JsonKey(OMITTED_ID.fields[0]) == ID && OmitsEmpty(OMITTED_ID.fields[0])
  {
    var tag := ID + [COMMA] + OMITEMPTY;
    assert |ID| == 2 && ID[0] == 0x69 && ID[1] == 0x64;
    assert tag[1..][1..][0] == COMMA && tag[1..][0] == 0x64;
    assert BeforeComma(tag[1..][1..]) == [];
    assert BeforeComma(tag[1..]) == [0x64] + [];
    assert BeforeComma(tag) == [0x69] + [0x64];
    assert BeforeComma(tag) == ID;
    assert tag[3..] == OMITEMPTY;
  }

  lemma OmittedMembers(path: Text)
    ensures
      var t, r := OMITTED_ID, [Number(0)];
      && RawMembers(t, r, |r|) == [] && IdField(t, |t.fields|) == 0 && !Kept(t.fields[0], r[0])
      && FastMembers(t, r, path) == [(AT_ID, Plain(ItemIri(path, [0x30])))]
  {
    var t, r := OMITTED_ID, [Number(0)];
    OmittedIdTag();
    assert RawMembers(t, r, 0) == [];
    assert RawMembers(t, r, 1) == [];
    assert IdField(t, 1) == 0;
    assert Display(Number(0)) == [0x30];
    assert IdMembers([0x30], path) == [(AT_ID, Plain(ItemIri(path, [0x30])))];
    assert FastMembers(t, r, path) == [] + IdMembers([0x30], path) + [];
  }

  lemma OneMemberIsClear(t: StructType, r: Record, path: Text, m: Member)
    requires |t.fields| == |r| == 1 && RawMembers(t, r, |r|) == [] && FastMembers(t, r, path) == [m] && m.0 != AT_CONTEXT
    ensures NamesClear(t, r, path)
  {
    assert CONTEXT.0 == AT_CONTEXT;
    assert DistinctKeys([CONTEXT] + [m]);
  }

  lemma OmittedFits()
    ensures Fits(OMITTED_ID, [Number(0)]) && !HasEmptyForeignKey(OMITTED_ID, [Number(0)])
  {}

  lemma OmittedIsNotKept(path: Text)
    ensures !IdKept(OMITTED_ID, [Number(0)])
  {
    OmittedMembers(path);
    assert Display(Number(0)) == [0x30];
  }

  /** The condition is needed: an id of zero that may be omitted is shown by the
      streaming path and not by the map path. */
  lemma OmittedZeroIdDiffers(path: Text) returns (r: Record)
    ensures Fits(OMITTED_ID, r) && NamesClear(OMITTED_ID, r, path) && !HasEmptyForeignKey(OMITTED_ID, r)
    ensures !Denotes(FastBytes(One(OMITTED_ID, r), path), Marshalled(MapDocument(One(OMITTED_ID, r), path)))
  {
    r := [Number(0)];
    OmittedMembers(path);
    KeysDiffer();
    OmittedFits();
    OmittedIsNotKept(path);
    OneMemberIsClear(OMITTED_ID, r, path, (AT_ID, Plain(ItemIri(path, [0x30]))));
    FastPathRefinesMapPath(One(OMITTED_ID, r), path);
  }

  /** A type whose only field is a string. */
  const NAMED: StructType := StructType([], [StructField(Ascii("name"), true, [], true)])

  /** The other condition is needed too: a byte that is not UTF-8 is copied by the
      streaming path, and its document is no JSON. */
  lemma BadByteDiffers(path: Text) returns (r: Record)
    ensures Fits(NAMED, r) && NamesClear(NAMED, r, path) && !HasEmptyForeignKey(NAMED, r) && IdKept(NAMED, r)
    ensures !Denotes(FastBytes(One(NAMED, r), path), Marshalled(MapDocument(One(NAMED, r), path)))
  {
    r := [Plain([0xFF])];
    NamedMembers(path);
    NamedIsClear(path);
    assert !MemberUtf8(FastMembers(NAMED, r, path)[0]);
    FastPathRefinesMapPath(One(NAMED, r), path);
  }

  lemma NamedMembers(path: Text)
    ensures
      var t, r := NAMED, [Plain([0xFF])];
      && RawMembers(t, r, |r|) == [(Ascii("name"), r[0])] && IdField(t, |t.fields|) == -1 && !IsForeignKey(Ascii("name"))
      && FastMembers(t, r, path) == [(Ascii("name"), r[0])]
  {
    var t, r := NAMED, [Plain([0xFF])];
    var name := Ascii("name");
    assert |name| == 4 && |ID| == 2 && name[3] == 0x65;
    NoForeignKey(name);
    assert JsonKey(t.fields[0]) == name;
    assert RawMembers(t, r, 0) == [];
    assert RawMembers(t, r, 1) == [] + [(name, r[0])];
    assert IdField(t, 0) == -1;
    assert RewriteAll([(name, r[0])]) == [(name, r[0])];
    assert FastMembers(t, r, path) == [] + [] + [(name, r[0])];
  }

  lemma NamedIsClear(path: Text)
    ensures Fits(NAMED, [Plain([0xFF])]) && NamesClear(NAMED, [Plain([0xFF])], path)
    ensures !HasEmptyForeignKey(NAMED, [Plain([0xFF])]) && IdKept(NAMED, [Plain([0xFF])])
  {
    NamedMembers(path);
    var name := Ascii("name");
    assert |name| == 4 && |AT_CONTEXT| == 8;
    assert DistinctKeys([CONTEXT] + [(name, Plain([0xFF]))]);
    assert JsonKey(NAMED.fields[0]) == name;
  }
}
