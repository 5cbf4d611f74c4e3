/** What tags, keys and paths mean, told by how they are put together
    (serializer/serializer.go:69-113, 204-284, serializer/fastld.go:51-92). */
module ResourceNames {
  import opened JsonStrings
  import opened JsonValues
  import opened JsonLd

  ghost predicate EndsIn(s: Text, ending: Text) {
    exists stem: Text :: s == stem + ending
  }

  lemma SuffixMeans(s: Text, suffix: Text)
    ensures HasSuffix(s, suffix) <==> EndsIn(s, suffix)
  {
    if HasSuffix(s, suffix) { assert s == s[..|s| - |suffix|] + suffix; }
    if stem: Text :| s == stem + suffix { SuffixOf(stem, suffix); }
  }

  lemma SuffixOf(stem: Text, suffix: Text)
    ensures HasSuffix(stem + suffix, suffix) && TrimSuffix(stem + suffix, suffix) == stem
  {
    assert (stem + suffix)[|stem|..] == suffix && (stem + suffix)[..|stem|] == stem;
  }

  // --------------------------------------------------- plurals

  const VOWELS: Text := Ascii("aeiou")

  /** Endings behind which the plural takes an e. */
  ghost predicate Hisses(word: Text) {
    EndsIn(word, Ascii("s")) || EndsIn(word, Ascii("x")) || EndsIn(word, Ascii("z")) || EndsIn(word, Ascii("ch")) || EndsIn(word, Ascii("sh"))
  }

  /** A stem that ends in no vowel, then y. */
  ghost predicate IsYWord(word: Text, stem: Text) {
    word == stem + Ascii("y") && stem != [] && stem[|stem| - 1] !in VOWELS
  }

  /** The plural of a word: -ies for -y behind no vowel, -es behind a hissing
      ending, -s otherwise. */
  ghost predicate IsPlural(word: Text, plural: Text) {
    || (exists stem :: IsYWord(word, stem) && plural == stem + Ascii("ies"))
    || (Hisses(word) && plural == word + Ascii("es"))
    || (!Hisses(word) && (forall stem :: !IsYWord(word, stem)) && plural == word + Ascii("s"))
  }

  lemma VowelsAre(c: Byte)
    ensures IsVowel(c) <==> c in VOWELS
  {
    assert |VOWELS| == 5 && VOWELS[0] == 0x61 && VOWELS[1] == 0x65 && VOWELS[2] == 0x69 && VOWELS[3] == 0x6F && VOWELS[4] == 0x75;
  }

  lemma HissesMeans(word: Text)
    ensures Hisses(word) <==> HasSuffix(word, Ascii("s")) || HasSuffix(word, Ascii("x")) || HasSuffix(word, Ascii("z"))
                              || HasSuffix(word, Ascii("ch")) || HasSuffix(word, Ascii("sh"))
  {
    SuffixMeans(word, Ascii("s"));
    SuffixMeans(word, Ascii("x"));
    SuffixMeans(word, Ascii("z"));
    SuffixMeans(word, Ascii("ch"));
    SuffixMeans(word, Ascii("sh"));
  }

  lemma YWordMeans(word: Text, stem: Text)
    ensures IsYWord(word, stem) <==>
      HasSuffix(word, Ascii("y")) && |word| > 1 && !IsVowel(word[|word| - 2]) && stem == word[..|word| - 1]
  {
    assert |Ascii("y")| == 1;
    if IsYWord(word, stem) {
      SuffixOf(stem, Ascii("y"));
      VowelsAre(stem[|stem| - 1]);
    }
    if HasSuffix(word, Ascii("y")) && |word| > 1 && !IsVowel(word[|word| - 2]) && stem == word[..|word| - 1] {
      VowelsAre(word[|word| - 2]);
      assert word == stem + Ascii("y");
    }
  }

  lemma PluralizeMeans(word: Text)
    ensures IsPlural(word, Pluralize(word))
  {
    HissesMeans(word);
    forall stem ensures IsYWord(word, stem) <==>
      HasSuffix(word, Ascii("y")) && |word| > 1 && !IsVowel(word[|word| - 2]) && stem == word[..|word| - 1]
    {
      YWordMeans(word, stem);
    }
    if HasSuffix(word, Ascii("y")) && |word| > 1 && !IsVowel(word[|word| - 2]) {
      assert IsYWord(word, word[..|word| - 1]);
    }
  }

  lemma LastOf(stem: Text, ending: Text)
    requires ending != []
    ensures (stem + ending)[|stem + ending| - 1] == ending[|ending| - 1]
  {}

  /** A y is no hissing ending. */
  lemma YDoesNotHiss(word: Text, stem: Text)
    requires IsYWord(word, stem)
    ensures !Hisses(word)
  {
    LastOf(stem, Ascii("y"));
    forall other: Text, e | e in {Ascii("s"), Ascii("x"), Ascii("z"), Ascii("ch"), Ascii("sh")} ensures word != other + e {
      LastOf(other, e);
    }
  }

  /** A word has one plural. */
  lemma PluralIsOne(word: Text, a: Text, b: Text)
    requires IsPlural(word, a) && IsPlural(word, b)
    ensures a == b
  {
    if stem :| IsYWord(word, stem) {
      YDoesNotHiss(word, stem);
      forall other | IsYWord(word, other) ensures other == stem {
        YWordMeans(word, stem);
        YWordMeans(word, other);
      }
    }
  }

  // --------------------------------------------------- foreign keys

  /** A key names a relation when it is that name and one of two endings. */
  ghost predicate KeyOf(key: Text, relation: Text) {
    key != Ascii("id") && (key == relation + Ascii("_id") || key == relation + Ascii("Id"))
  }

  lemma EndingsDiffer(a: Text, b: Text)
    ensures a + Ascii("_id") != b + Ascii("Id")
  {
    var x, y := a + Ascii("_id"), b + Ascii("Id");
    assert x[|x| - 2] == 0x69;
    assert y[|y| - 2] == 0x49;
  }

  lemma ForeignKeyMeans(key: Text)
    ensures IsForeignKey(key) <==> exists relation :: KeyOf(key, relation)
    ensures IsForeignKey(key) ==> KeyOf(key, RelationName(key))
  {
    SuffixMeans(key, Ascii("_id"));
    SuffixMeans(key, Ascii("Id"));
    if HasSuffix(key, Ascii("_id")) {
      var stem: Text :| key == stem + Ascii("_id");
      SuffixOf(stem, Ascii("_id"));
      assert key != Ascii("id") ==> KeyOf(key, stem);
    } else if HasSuffix(key, Ascii("Id")) {
      var stem: Text :| key == stem + Ascii("Id");
      SuffixOf(stem, Ascii("Id"));
      assert key != Ascii("id") ==> KeyOf(key, stem);
    }
    if relation :| KeyOf(key, relation) {
      assert key == relation + Ascii("_id") ==> EndsIn(key, Ascii("_id"));
      assert key == relation + Ascii("Id") ==> EndsIn(key, Ascii("Id"));
    }
  }

  /** And a key names one relation. */
  lemma RelationIs(key: Text, relation: Text)
    requires KeyOf(key, relation)
    ensures IsForeignKey(key) && RelationName(key) == relation
  {
    ForeignKeyMeans(key);
    var other := RelationName(key);
    EndingsDiffer(other, relation);
    EndingsDiffer(relation, other);
    SuffixOf(relation, Ascii("_id"));
    SuffixOf(other, Ascii("_id"));
    SuffixOf(relation, Ascii("Id"));
    SuffixOf(other, Ascii("Id"));
  }

  /** A string behind a foreign key becomes the link /plural/value of its relation;
      nothing else is changed. */
  lemma RewriteMeans(key: Text, relation: Text, value: Text, plural: Text)
    requires KeyOf(key, relation) && value != [] && IsPlural(relation, plural)
    ensures Rewrite((key, Plain(value))) == (relation, Plain([0x2F] + plural + [0x2F] + value))
  {
    RelationIs(key, relation);
    PluralizeMeans(relation);
    PluralIsOne(relation, plural, Pluralize(relation));
  }

  lemma OthersAreKept(m: Member)
    requires !m.1.Plain? || m.1.text == [] || forall relation :: !KeyOf(m.0, relation)
    ensures Rewrite(m) == m
  {
    ForeignKeyMeans(m.0);
  }

  /** The plan of a string field that is a foreign key names its relation and the
      plural; no other field is planned as one. */
  lemma PlanMeans(f: StructField, i: nat, relation: Text, plural: Text)
    requires KeyOf(JsonKey(f), relation) && f.isString && IsPlural(relation, plural)
    ensures LdFieldOf(f, i) == LdField(JsonKey(f), i, OmitsEmpty(f), true, relation, plural)
  {
    RelationIs(JsonKey(f), relation);
    PluralizeMeans(relation);
    PluralIsOne(relation, plural, Pluralize(relation));
  }

  lemma OtherPlanMeans(f: StructField, i: nat)
    requires !f.isString || forall relation :: !KeyOf(JsonKey(f), relation)
    ensures LdFieldOf(f, i) == LdField(JsonKey(f), i, OmitsEmpty(f), false, [], [])
  {
    ForeignKeyMeans(JsonKey(f));
  }

  // --------------------------------------------------- tags

  lemma {:induction false} NameBeforeComma(name: Text, rest: Text)
    requires COMMA !in name && (rest != [] ==> rest[0] == COMMA)
    ensures BeforeComma(name + rest) == name
  {
    if name == [] {
      assert name + rest == rest;
    } else {
      assert (name + rest)[0] == name[0] && (name + rest)[1..] == name[1..] + rest;
      NameBeforeComma(name[1..], rest);
    }
  }

  lemma WherePart(s: Text, a: Text, part: Text, b: Text)
    requires s == a + part + b
    ensures if a == [] then part <= s else s != [] && s[1..] == a[1..] + part + b
  {
    if a == [] { assert a + part + b == part + b; }
  }

  lemma {:induction false} ContainsMeans(s: Text, part: Text)
    ensures Contains(s, part) <==> exists a: Text, b: Text :: s == a + part + b
  {
    if part <= s { assert s == [] + part + s[|part|..]; }
    if s != [] {
      ContainsMeans(s[1..], part);
      if Contains(s[1..], part) {
        var a: Text, b: Text :| s[1..] == a + part + b;
        assert s == ([s[0]] + a) + part + b;
      }
    }
    if a: Text, b: Text :| s == a + part + b { WherePart(s, a, part, b); }
  }

  /** A tag is a name, and options behind a comma: the name is the key unless it is
      empty, and only an option list that speaks of omitempty omits. */
  lemma TagMeans(f: StructField, name: Text, options: Text)
    requires COMMA !in name
    ensures f.tag == name ==> JsonKey(f) == (if name == [] then f.name else name) && !OmitsEmpty(f)
    ensures f.tag == name + [COMMA] + options ==>
      && JsonKey(f) == (if name == [] then f.name else name)
      && (OmitsEmpty(f) <==> exists a: Text, b: Text :: options == a + Ascii("omitempty") + b)
  {
    NameBeforeComma(name, []);
    NameBeforeComma(name, [COMMA] + options);
    ContainsMeans(options, Ascii("omitempty"));
    assert name + [] == name;
    assert name + ([COMMA] + options) == name + [COMMA] + options;
    assert (name + [COMMA] + options)[|name| + 1..] == options;
  }

  /** Which values count as empty, and which fields are written. */
  lemma KeptMeans(f: StructField, v: Scalar)
    ensures Kept(f, v) <==> f.exported && f.tag != Ascii("-") && !(OmitsEmpty(f) && (v in {Plain([]), Flag(false), Number(0)} || (v.Leaf? && v.zero)))
  {
    assert Ascii("-") == [MINUS];
  }

  // --------------------------------------------------- paths

  /** The path, one slash at its end not counted, with the id behind it unless it
      ends with the id. */
  lemma ItemIriMeans(path: Text, clean: Text, id: Text)
    requires path == clean + [0x2F] || (path == clean && !EndsIn(path, [0x2F]))
    ensures EndsIn(clean, id) ==> ItemIri(path, id) == clean
    ensures !EndsIn(clean, id) ==> ItemIri(path, id) == clean + [0x2F] + id
  {
    SuffixOf(clean, [0x2F]);
    SuffixMeans(path, [0x2F]);
    SuffixMeans(clean, id);
  }

  // --------------------------------------------------- items

  /** A flag or a number is shown in a path as in JSON, where it is read back; a
      text as it is. */
  lemma DisplayMeans(v: Scalar, t: Text, rest: Text)
    requires (v.Flag? || v.Number?) && t == Display(v) + rest && rest != [] && !IsDigit(rest[0])
    ensures ReadValue(t) == Done(AsJson(v), rest)
  {
    ScalarReadsBack(v, rest, t);
  }

  lemma {:induction false} KeptAreRaw(t: StructType, r: Record, n: nat, i: nat)
    requires i < n <= |t.fields| == |r| && Kept(t.fields[i], r[i])
    ensures (JsonKey(t.fields[i]), r[i]) in RawMembers(t, r, n)
  {
    if i < n - 1 { KeptAreRaw(t, r, n - 1, i); }
  }

  lemma RewrittenIn(m: Member, ms: seq<Member>)
    requires m in ms
    ensures Rewrite(m) in RewriteAll(ms)
  {
    var i :| 0 <= i < |ms| && ms[i] == m;
    assert RewriteAll(ms)[i] == Rewrite(m);
  }

  /** What an item says: its type, where it is, and every field that is kept,
      foreign keys as links. */
  lemma ItemSays(t: StructType, r: Record, path: Text, i: nat)
    requires i < |t.fields| == |r|
    ensures
      var ms := FastMembers(t, r, path);
      && (t.name != [] ==> (Ascii("@type"), Plain(t.name)) in ms)
      && (FastId(t, r) != [] ==> (Ascii("@id"), Plain(ItemIri(path, FastId(t, r)))) in ms)
      && (Kept(t.fields[i], r[i]) ==> Rewrite((JsonKey(t.fields[i]), r[i])) in ms)
  {
    if t.name != [] { assert (Ascii("@type"), Plain(t.name)) == TypeMembers(t)[0]; }
    if FastId(t, r) != [] { assert (Ascii("@id"), Plain(ItemIri(path, FastId(t, r)))) == IdMembers(FastId(t, r), path)[0]; }
    if Kept(t.fields[i], r[i]) {
      KeptAreRaw(t, r, |r|, i);
      RewrittenIn((JsonKey(t.fields[i]), r[i]), RawMembers(t, r, |r|));
    }
  }

  /** The id is that of the last field named id, if there is one. */
  lemma {:induction false} IdMeans(t: StructType, n: nat, i: int)
    requires -1 <= i < n <= |t.fields|
    ensures IdField(t, n) == i <==>
      && (i >= 0 ==> t.fields[i].exported && t.fields[i].tag != Ascii("-") && JsonKey(t.fields[i]) == Ascii("id"))
      && forall k :: i < k < n && t.fields[k].exported && t.fields[k].tag != Ascii("-") ==> JsonKey(t.fields[k]) != Ascii("id")
  {
    assert Ascii("-") == [MINUS];
    if n > 0 && i < n - 1 { IdMeans(t, n - 1, i); }
  }
}
