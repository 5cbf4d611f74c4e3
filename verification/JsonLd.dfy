/** JSON-LD: the streaming path and the map path of the serializer
    (serializer/fastld.go, serializer/serializer.go). */
module JsonLd {
  import opened JsonStrings
  import opened JsonValues

  // --------------------------------------------------- types and records

  /** A struct field: `tag` is its json tag, empty when there is none. */
  datatype StructField = StructField(name: Text, exported: bool, tag: Text, isString: bool)
  datatype StructType = StructType(name: Text, fields: seq<StructField>)
  type Record = seq<Scalar>

  /** String fields hold strings; a leaf's display text is not empty. */
  predicate Fits(t: StructType, r: Record) {
    |r| == |t.fields| && forall i :: 0 <= i < |r| ==>
      ValidScalar(r[i]) && (r[i].Plain? <==> t.fields[i].isString) && (r[i].Leaf? ==> r[i].display != [])
  }

  function Ascii(s: string): Text {
    seq(|s|, i requires 0 <= i < |s| => if s[i] as int < 0x80 then s[i] as int else 0x3F)
  }

  const AT_CONTEXT := Ascii("@context")
  const AT_GRAPH := Ascii("@graph")
  const AT_TYPE := Ascii("@type")
  const AT_ID := Ascii("@id")
  const ID := Ascii("id")
  const SCHEMA_URL := Ascii("https://schema.org/")
  const OMITEMPTY := Ascii("omitempty")

  predicate HasSuffix(s: Text, suffix: Text) {
    |s| >= |suffix| && s[|s| - |suffix|..] == suffix
  }

  function TrimSuffix(s: Text, suffix: Text): Text {
    if HasSuffix(s, suffix) then s[..|s| - |suffix|] else s
  }

  predicate Contains(s: Text, part: Text) {
    part <= s || (s != [] && Contains(s[1..], part))
  }

  /** The text before the first comma. */
  function BeforeComma(s: Text): (r: Text)
    ensures |r| <= |s|
  {
    if s == [] || s[0] == COMMA then [] else [s[0]] + BeforeComma(s[1..])
  }

  function JsonKey(f: StructField): Text {
    if BeforeComma(f.tag) != [] then BeforeComma(f.tag) else f.name
  }

  predicate OmitsEmpty(f: StructField) {
    |BeforeComma(f.tag)| < |f.tag| && Contains(f.tag[|BeforeComma(f.tag)| + 1..], OMITEMPTY)
  }

  predicate Shown(f: StructField) {
    f.exported && f.tag != [MINUS]
  }

  predicate IsZero(v: Scalar) {
    match v
    case Plain(text) => text == []
    case Flag(flag) => !flag
    case Number(n) => n == 0
    case Leaf(_, _, zero) => zero
  }

  /** The field is written: exported, not hidden, not omitted for being empty. */
  predicate Kept(f: StructField, v: Scalar) {
    Shown(f) && !(OmitsEmpty(f) && IsZero(v))
  }

  // --------------------------------------------------- names of relations

  function FkSuffix(key: Text): Text {
    if HasSuffix(key, Ascii("_id")) then Ascii("_id")
    else if HasSuffix(key, Ascii("Id")) then Ascii("Id")
    else []
  }

  predicate IsForeignKey(key: Text) {
    key != ID && FkSuffix(key) != []
  }

  function RelationName(key: Text): Text {
    TrimSuffix(key, FkSuffix(key))
  }

  predicate IsVowel(c: Byte) {
    c == 0x61 || c == 0x65 || c == 0x69 || c == 0x6F || c == 0x75
  }

  function Pluralize(word: Text): Text {
    if HasSuffix(word, Ascii("y")) && |word| > 1 && !IsVowel(word[|word| - 2]) then word[..|word| - 1] + Ascii("ies")
    else if HasSuffix(word, Ascii("s")) || HasSuffix(word, Ascii("x")) || HasSuffix(word, Ascii("z"))
         || HasSuffix(word, Ascii("ch")) || HasSuffix(word, Ascii("sh")) then word + Ascii("es")
    else word + Ascii("s")
  }

  function RelationIri(key: Text, value: Text): Text {
    [SLASH] + Pluralize(RelationName(key)) + [SLASH] + value
  }

  /** How a value is shown inside an identifier. */
  function Display(v: Scalar): Text {
    match v
    case Plain(text) => text
    case Flag(flag) => if flag then TRUE_TEXT else FALSE_TEXT
    case Number(n) => NumberText(n)
    case Leaf(_, display, _) => display
  }

  /** The path, with the id behind it unless it ends with the id already. */
  function ItemIri(path: Text, id: Text): Text {
    var clean := TrimSuffix(path, [SLASH]);
    if HasSuffix(clean, id) then clean else clean + [SLASH] + id
  }

  // --------------------------------------------------- members of an item

  /** The fields written under their own names, of the first n. */
  function RawMembers(t: StructType, r: Record, n: nat): seq<Member>
    requires n <= |t.fields| == |r|
  {
    if n == 0 then []
    else RawMembers(t, r, n - 1) + if Kept(t.fields[n - 1], r[n - 1]) then [(JsonKey(t.fields[n - 1]), r[n - 1])] else []
  }

  predicate Rewrites(m: Member) {
    IsForeignKey(m.0) && m.1.Plain? && m.1.text != []
  }

  /** A foreign key becomes its relation, pointing at the related resource. */
  function Rewrite(m: Member): Member {
    if Rewrites(m) then (RelationName(m.0), Plain(RelationIri(m.0, m.1.text))) else m
  }

  function RewriteAll(ms: seq<Member>): seq<Member> {
    seq(|ms|, i requires 0 <= i < |ms| => Rewrite(ms[i]))
  }

  function TypeMembers(t: StructType): seq<Member> {
    if t.name == [] then [] else [(AT_TYPE, Plain(t.name))]
  }

  function IdMembers(id: Text, path: Text): seq<Member> {
    if id == [] then [] else [(AT_ID, Plain(ItemIri(path, id)))]
  }

  /** The last field named id among the first n, or -1. */
  function IdField(t: StructType, n: nat): (i: int)
    requires n <= |t.fields|
    ensures -1 <= i < n && (i >= 0 ==> Shown(t.fields[i]) && JsonKey(t.fields[i]) == ID)
  {
    if n == 0 then -1
    else if Shown(t.fields[n - 1]) && JsonKey(t.fields[n - 1]) == ID then n - 1
    else IdField(t, n - 1)
  }

  /** The id the streaming path shows: the field's, kept or not. */
  function FastId(t: StructType, r: Record): Text
    requires |t.fields| == |r|
  {
    var i := IdField(t, |t.fields|);
    if i < 0 then [] else Display(r[i])
  }

  /** The id the map path shows: the one in the map. */
  function MapId(raw: map<Text, Scalar>): Text {
    if ID in raw then Display(raw[ID]) else []
  }

  /** A string foreign key the streaming path leaves to the map path. */
  predicate EmptyForeignKey(f: StructField, v: Scalar) {
    Kept(f, v) && f.isString && IsForeignKey(JsonKey(f)) && Display(v) == []
  }

  predicate HasEmptyForeignKey(t: StructType, r: Record)
    requires |t.fields| == |r|
  {
    exists i :: 0 <= i < |r| && EmptyForeignKey(t.fields[i], r[i])
  }

  function FastMembers(t: StructType, r: Record, path: Text): seq<Member>
    requires |t.fields| == |r|
  {
    TypeMembers(t) + IdMembers(FastId(t, r), path) + RewriteAll(RawMembers(t, r, |r|))
  }

  function MapMembers(t: StructType, r: Record, path: Text): seq<Member>
    requires |t.fields| == |r|
  {
    var raw := RawMembers(t, r, |r|);
    raw + TypeMembers(t) + IdMembers(MapId(MapOf(raw)), path)
  }

  // --------------------------------------------------- the plan

  datatype LdField = LdField(jsonKey: Text, index: nat, omitempty: bool, isStringFK: bool, relationName: Text, resourceName: Text)
  datatype LdPlan = LdPlan(typeName: Text, idFieldIndex: int, fields: seq<LdField>)

  function LdFieldOf(f: StructField, i: nat): LdField {
    var key := JsonKey(f);
    if f.isString && IsForeignKey(key)
    then LdField(key, i, OmitsEmpty(f), true, RelationName(key), Pluralize(RelationName(key)))
    else LdField(key, i, OmitsEmpty(f), false, [], [])
  }

  function LdFields(t: StructType, n: nat): seq<LdField>
    requires n <= |t.fields|
  {
    if n == 0 then [] else LdFields(t, n - 1) + if Shown(t.fields[n - 1]) then [LdFieldOf(t.fields[n - 1], n - 1)] else []
  }

  method GetLDPlan(t: StructType) returns (p: LdPlan)
    ensures p == LdPlan(t.name, IdField(t, |t.fields|), LdFields(t, |t.fields|))
  {
    var fields, idFieldIndex := [], -1;
    for i := 0 to |t.fields|
      invariant fields == LdFields(t, i) && idFieldIndex == IdField(t, i)
    {
      var f := t.fields[i];
      if !Shown(f) {
        continue;
      }
      var key := JsonKey(f);
      if key == ID {
        idFieldIndex := i;
      }
      var fld := LdField(key, i, OmitsEmpty(f), false, [], []);
      if key != ID && f.isString {
        var suffix := FkSuffix(key);
        if suffix != [] {
          var rel := TrimSuffix(key, suffix);
          fld := LdField(key, i, OmitsEmpty(f), true, rel, Pluralize(rel));
        }
      }
      fields := fields + [fld];
    }
    return LdPlan(t.name, idFieldIndex, fields);
  }

  // --------------------------------------------------- the streaming path

  method WriteJSONValue(buf: Buffer, v: Scalar)
    modifies buf
    ensures buf.contents == old(buf.contents) + ScalarBytes(v)
  {
    match v {
      case Plain(text) => WriteJSONString(buf, text);
      case Flag(flag) => if flag { buf.Write(TRUE_TEXT); } else { buf.Write(FALSE_TEXT); }
      case Number(n) => buf.Write(NumberText(n));
      case Leaf(text, _, _) =>
        buf.Write([QUOTE]);
        buf.Write(text);
        buf.Write([QUOTE]);
    }
  }

  /** The local `sep`: a comma before everything but the first. */
  method Sep(buf: Buffer, first: bool)
    modifies buf
    ensures buf.contents == old(buf.contents) + if first then [] else [COMMA]
  {
    if !first { buf.Write([COMMA]); }
  }

  lemma {:induction false} ListedAppend(first: bool, ms: seq<Member>, m: Member)
    ensures Listed(first, ms + [m]) == Listed(first, ms) + (if first && ms == [] then [] else [COMMA]) + MemberBytes(m)
    decreases |ms|
  {
    if ms == [] {
      assert ms + [m] == [m] && [m][1..] == [];
    } else {
      assert (ms + [m])[0] == ms[0] && (ms + [m])[1..] == ms[1..] + [m];
      ListedAppend(false, ms[1..], m);
      var run := MemberBytes(ms[0]) + Listed(false, ms[1..]);
      Regroup(MemberBytes(ms[0]), Listed(false, ms[1..]), [COMMA], MemberBytes(m));
      Regroup([COMMA], run, [COMMA], MemberBytes(m));
    }
  }

  /** What has been written stands for these members. */
  ghost predicate Wrote(before: Text, first: bool, ms: seq<Member>, now: Text) {
    now == before + Listed(first, ms)
  }

  lemma WroteMore(before: Text, first: bool, ms: seq<Member>, now: Text, m: Member)
    requires Wrote(before, first, ms, now)
    ensures Wrote(before, first, ms + [m], now + (if first && ms == [] then [] else [COMMA]) + MemberBytes(m))
  {
    ListedAppend(first, ms, m);
    Regroup(before, Listed(first, ms), if first && ms == [] then [] else [COMMA], MemberBytes(m));
  }

  /** The constant names need no escape. */
  lemma NamesAreSafe()
    ensures Escape(AT_TYPE) == AT_TYPE && Escape(AT_ID) == AT_ID
  {
    SafeIsUnchanged(AT_TYPE);
    SafeIsUnchanged(AT_ID);
  }

  /** A name that needs no escape, then a text. */
  method WriteNamed(buf: Buffer, first: bool, name: Text)
    modifies buf
    ensures buf.contents == old(buf.contents) + (if first then [] else [COMMA]) + ([QUOTE] + name + [QUOTE, COLON])
  {
    Sep(buf, first);
    buf.Write([QUOTE] + name + [QUOTE, COLON]);
  }

  lemma NamedMember(before: Text, first: bool, name: Text, text: Text)
    requires Escape(name) == name
    ensures before + (if first then [] else [COMMA]) + ([QUOTE] + name + [QUOTE, COLON]) + Quoted(text)
            == before + (if first then [] else [COMMA]) + MemberBytes((name, Plain(text)))
  {
    assert Quoted(name) + [COLON] == [QUOTE] + name + [QUOTE, COLON];
  }

  method WriteType(buf: Buffer, first: bool, typeName: Text)
    modifies buf
    ensures buf.contents == old(buf.contents) + (if first then [] else [COMMA]) + MemberBytes((AT_TYPE, Plain(typeName)))
  {
    NamesAreSafe();
    NamedMember(buf.contents, first, AT_TYPE, typeName);
    WriteNamed(buf, first, AT_TYPE);
    WriteText(buf, typeName);
  }

  method WriteText(buf: Buffer, text: Text)
    modifies buf
    ensures buf.contents == old(buf.contents) + Quoted(text)
  {
    WriteJSONString(buf, text);
  }

  lemma IriInPieces(clean: Text, id: Text)
    ensures Escape(clean + [SLASH] + id) == Escape(clean) + [SLASH] + Escape(id)
  {
    EscapeInPieces(clean, [SLASH] + id);
    assert clean + ([SLASH] + id) == clean + [SLASH] + id;
    assert ([SLASH] + id)[1..] == id;
  }

  method WriteId(buf: Buffer, first: bool, path: Text, id: Text)
    modifies buf
    ensures buf.contents == old(buf.contents) + (if first then [] else [COMMA]) + MemberBytes((AT_ID, Plain(ItemIri(path, id))))
  {
    NamesAreSafe();
    NamedMember(buf.contents, first, AT_ID, ItemIri(path, id));
    var cleanPath := TrimSuffix(path, [SLASH]);
    WriteNamed(buf, first, AT_ID);
    WriteIri(buf, cleanPath, id);
  }

  method WriteIri(buf: Buffer, cleanPath: Text, id: Text)
    modifies buf
    ensures buf.contents == old(buf.contents) + Quoted(if HasSuffix(cleanPath, id) then cleanPath else cleanPath + [SLASH] + id)
  {
    buf.Write([QUOTE]);
    WriteIriBody(buf, cleanPath, id);
    buf.Write([QUOTE]);
  }

  method WriteIriBody(buf: Buffer, cleanPath: Text, id: Text)
    modifies buf
    ensures buf.contents == old(buf.contents) + Escape(if HasSuffix(cleanPath, id) then cleanPath else cleanPath + [SLASH] + id)
  {
    WriteJSONStringBody(buf, cleanPath);
    if !HasSuffix(cleanPath, id) {
      IriInPieces(cleanPath, id);
      buf.Write([SLASH]);
      WriteJSONStringBodyBytes(buf, id);
    }
  }

  method WriteKey(buf: Buffer, first: bool, key: Text)
    modifies buf
    ensures buf.contents == old(buf.contents) + (if first then [] else [COMMA]) + (Quoted(key) + [COLON])
  {
    Sep(buf, first);
    WriteText(buf, key);
    buf.Write([COLON]);
  }

  lemma MemberInPieces(before: Text, first: bool, m: Member)
    ensures before + (if first then [] else [COMMA]) + (Quoted(m.0) + [COLON]) + ScalarBytes(m.1)
            == before + (if first then [] else [COMMA]) + MemberBytes(m)
  {}

  /** One field: false when it must be left to the map path. */
  method WriteField(buf: Buffer, first0: bool, f: LdField, v: Scalar, ghost sf: StructField) returns (ok: bool, first: bool)
    requires f == LdFieldOf(sf, f.index) && Shown(sf) && (v.Plain? <==> sf.isString)
    modifies buf
    ensures ok == !EmptyForeignKey(sf, v)
    ensures ok && !Kept(sf, v) ==> first == first0 && buf.contents == old(buf.contents)
    ensures ok && Kept(sf, v) ==>
      !first && buf.contents == old(buf.contents) + (if first0 then [] else [COMMA]) + MemberBytes(Rewrite((JsonKey(sf), v)))
  {
    first := first0;
    if f.omitempty && IsZero(v) {
      return true, first;
    }
    MemberInPieces(buf.contents, first0, Rewrite((JsonKey(sf), v)));
    if f.isStringFK {
      if v.text == [] {
        return false, first;
      }
      WriteKey(buf, first, f.relationName);
      WriteText(buf, [SLASH] + f.resourceName + [SLASH] + v.text);
      return true, false;
    }
    WriteKey(buf, first, f.jsonKey);
    WriteJSONValue(buf, v);
    return true, false;
  }

  /** @type, @id and the fields; false leaves the record to the map path. */
  method WriteLDBody(buf: Buffer, t: StructType, r: Record, path: Text, plan: LdPlan, hasLeading: bool) returns (ok: bool)
    requires Fits(t, r) && plan == LdPlan(t.name, IdField(t, |t.fields|), LdFields(t, |t.fields|))
    modifies buf
    ensures ok == !HasEmptyForeignKey(t, r)
    ensures ok ==> buf.contents == old(buf.contents) + Listed(!hasLeading, FastMembers(t, r, path))
  {
    var first := WriteHead(buf, t, r, path, plan, hasLeading);
    PlanGivesRaw(t, r, |r|);
    EmptyKeysPlanned(t, r);
    ok := WriteFields(buf, t, r, plan.fields, !hasLeading, first, old(buf.contents), TypeMembers(t) + IdMembers(FastId(t, r), path));
  }

  method WriteHead(buf: Buffer, ghost t: StructType, r: Record, path: Text, plan: LdPlan, hasLeading: bool) returns (first: bool)
    requires Fits(t, r) && plan.typeName == t.name && plan.idFieldIndex == IdField(t, |t.fields|)
    modifies buf
    ensures
      var ms := TypeMembers(t) + IdMembers(FastId(t, r), path);
      Wrote(old(buf.contents), !hasLeading, ms, buf.contents) && (first <==> !hasLeading && ms == [])
  {
    first := !hasLeading;
    assert old(buf.contents) + [] == buf.contents;
    assert Wrote(old(buf.contents), !hasLeading, [], buf.contents);
    if plan.typeName != [] {
      WroteMore(old(buf.contents), !hasLeading, [], buf.contents, (AT_TYPE, Plain(t.name)));
      assert [] + [(AT_TYPE, Plain(t.name))] == TypeMembers(t);
      WriteType(buf, first, plan.typeName);
      first := false;
    }
    assert TypeMembers(t) + [] == TypeMembers(t);
    if plan.idFieldIndex >= 0 {
      var id := Display(r[plan.idFieldIndex]);
      if |id| > 0 {
        WroteMore(old(buf.contents), !hasLeading, TypeMembers(t), buf.contents, (AT_ID, Plain(ItemIri(path, id))));
        WriteId(buf, first, path, id);
        first := false;
      }
    }
  }

  lemma {:induction false} PlannedFrom(t: StructType, n: nat)
    requires n <= |t.fields|
    ensures Planned(t, LdFields(t, n))
    ensures forall i :: 0 <= i < |LdFields(t, n)| ==> LdFields(t, n)[i].index < n
  {
    if n > 0 { PlannedFrom(t, n - 1); }
  }

  lemma {:induction false} PlannedField(t: StructType, n: nat, k: nat) returns (i: nat)
    requires k < n <= |t.fields| && Shown(t.fields[k])
    ensures i < |LdFields(t, n)| && LdFields(t, n)[i] == LdFieldOf(t.fields[k], k)
  {
    if k == n - 1 {
      i := |LdFields(t, n - 1)|;
    } else {
      i := PlannedField(t, n - 1, k);
    }
  }

  /** None of the first i planned fields is left to the map path. */
  ghost predicate NoEmptyKey(t: StructType, r: Record, fields: seq<LdField>, i: nat) {
    |r| == |t.fields| && Planned(t, fields) && forall k :: 0 <= k < i <= |fields| ==> !IsEmptyKey(t, r, fields[k])
  }

  ghost predicate IsEmptyKey(t: StructType, r: Record, f: LdField) {
    f.index < |t.fields| == |r| && EmptyForeignKey(t.fields[f.index], r[f.index])
  }

  lemma EmptyKeysPlanned(t: StructType, r: Record)
    requires |r| == |t.fields|
    ensures HasEmptyForeignKey(t, r) <==> !NoEmptyKey(t, r, LdFields(t, |t.fields|), |LdFields(t, |t.fields|)|)
  {
    var fields := LdFields(t, |t.fields|);
    PlannedFrom(t, |t.fields|);
    if HasEmptyForeignKey(t, r) {
      var k :| 0 <= k < |r| && EmptyForeignKey(t.fields[k], r[k]);
      var i := PlannedField(t, |t.fields|, k);
      assert IsEmptyKey(t, r, fields[i]);
    }
  }

  /** Every planned field comes from a shown struct field. */
  ghost predicate Planned(t: StructType, fields: seq<LdField>) {
    forall i :: 0 <= i < |fields| ==> PlannedOne(t, fields[i])
  }

  predicate PlannedOne(t: StructType, f: LdField) {
    f.index < |t.fields| && Shown(t.fields[f.index]) && f == LdFieldOf(t.fields[f.index], f.index)
  }

  /** The member a planned field gives, if any. */
  function PlannedMember(t: StructType, f: LdField, r: Record): seq<Member>
    requires PlannedOne(t, f) && |r| == |t.fields|
  {
    if Kept(t.fields[f.index], r[f.index]) then [(JsonKey(t.fields[f.index]), r[f.index])] else []
  }

  function PlannedMembers(t: StructType, fields: seq<LdField>, r: Record): seq<Member>
    requires Planned(t, fields) && |r| == |t.fields|
  {
    if fields == [] then []
    else PlannedMembers(t, fields[..|fields| - 1], r) + PlannedMember(t, fields[|fields| - 1], r)
  }

  lemma {:induction false} PlanGivesRaw(t: StructType, r: Record, n: nat)
    requires n <= |t.fields| == |r|
    ensures Planned(t, LdFields(t, n)) && PlannedMembers(t, LdFields(t, n), r) == RawMembers(t, r, n)
  {
    PlannedFrom(t, n);
    if n > 0 {
      PlanGivesRaw(t, r, n - 1);
      var before := LdFields(t, n - 1);
      if Shown(t.fields[n - 1]) {
        assert LdFields(t, n)[..|before|] == before;
      } else {
        assert RawMembers(t, r, n - 1) + [] == RawMembers(t, r, n - 1);
        assert before + [] == before;
      }
    }
  }

  lemma RewriteAllAppend(a: seq<Member>, m: Member)
    ensures RewriteAll(a + [m]) == RewriteAll(a) + [Rewrite(m)]
  {}

  method WriteFields(buf: Buffer, ghost t: StructType, r: Record, fields: seq<LdField>, ghost start: bool, first0: bool,
                     ghost before: Text, ghost head: seq<Member>) returns (ok: bool)
    requires Fits(t, r) && Planned(t, fields)
    requires UnderWay(before, start, head, buf.contents, first0)
    modifies buf
    ensures ok == NoEmptyKey(t, r, fields, |fields|)
    ensures ok ==> Wrote(before, start, head + RewriteAll(PlannedMembers(t, fields, r)), buf.contents)
  {
    var first := first0;
    assert head + [] == head;
    ghost var ms: seq<Member> := [];
    for i := 0 to |fields|
      invariant NoEmptyKey(t, r, fields, i) && ms == PlannedMembers(t, fields[..i], r)
      invariant UnderWay(before, start, head + RewriteAll(ms), buf.contents, first)
    {
      PlannedNext(t, fields, r, i);
      var done;
      done, first := WritePlanned(buf, t, r, fields[i], start, first, before, head, ms);
      if !done {
        return false;
      }
      ms := ms + PlannedMember(t, fields[i], r);
    }
    assert fields[..|fields|] == fields;
    return true;
  }

  lemma PlannedNext(t: StructType, fields: seq<LdField>, r: Record, i: nat)
    requires Planned(t, fields) && |r| == |t.fields| && i < |fields|
    ensures PlannedMembers(t, fields[..i + 1], r) == PlannedMembers(t, fields[..i], r) + PlannedMember(t, fields[i], r)
  {
    assert fields[..i + 1][..i] == fields[..i];
  }

  /** The members so far are written, and whether the next one is the first. */
  ghost predicate UnderWay(before: Text, start: bool, ms: seq<Member>, now: Text, first: bool) {
    Wrote(before, start, ms, now) && (first <==> start && ms == [])
  }

  method WritePlanned(buf: Buffer, ghost t: StructType, r: Record, f: LdField, ghost start: bool, first0: bool,
                      ghost before: Text, ghost head: seq<Member>, ghost ms: seq<Member>) returns (ok: bool, first: bool)
    requires Fits(t, r) && PlannedOne(t, f)
    requires UnderWay(before, start, head + RewriteAll(ms), buf.contents, first0)
    modifies buf
    ensures ok == !IsEmptyKey(t, r, f)
    ensures ok ==> UnderWay(before, start, head + RewriteAll(ms + PlannedMember(t, f, r)), buf.contents, first)
  {
    ghost var m := (JsonKey(t.fields[f.index]), r[f.index]);
    WroteMore(before, start, head + RewriteAll(ms), buf.contents, Rewrite(m));
    RewriteAllAppend(ms, m);
    assert head + RewriteAll(ms) + [Rewrite(m)] == head + RewriteAll(ms + [m]);
    assert ms + [] == ms;
    ok, first := WriteField(buf, first0, f, r[f.index], t.fields[f.index]);
  }
}
