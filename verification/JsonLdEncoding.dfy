/** Which streamed documents are UTF-8: the writer copies bytes it does not
    escape, so a document is as well formed as the texts in it
    (serializer/fastld.go:353-443). */
module JsonLdEncoding {
  import opened JsonStrings
  import opened Utf8Texts
  import opened JsonValues
  import opened JsonLd
  import opened JsonLdMaps

  /** A member's name and text. */
  predicate MemberUtf8(m: Member) {
    ValidUtf8(m.0) && (m.1.Plain? ==> ValidUtf8(m.1.text))
  }

  predicate AllUtf8(ms: seq<Member>) {
    forall i :: 0 <= i < |ms| ==> MemberUtf8(ms[i])
  }

  predicate ItemsUtf8(items: seq<seq<Member>>) {
    forall i :: 0 <= i < |items| ==> AllUtf8(items[i])
  }

  lemma Utf8Behind(b: Byte, t: Text)
    requires b < 0x80
    ensures ValidUtf8([b] + t) <==> ValidUtf8(t)
  {
    Utf8BehindAscii([b], t);
  }

  lemma QuotedUtf8(text: Text, t: Text)
    ensures ValidUtf8(Quoted(text) + t) <==> ValidUtf8(text) && ValidUtf8(t)
  {
    assert Quoted(text) + t == [QUOTE] + (Escape(text) + ([QUOTE] + t));
    Utf8Behind(QUOTE, Escape(text) + ([QUOTE] + t));
    Utf8InPieces(Escape(text), [QUOTE] + t);
    EscapeKeepsUtf8(text);
    Utf8Behind(QUOTE, t);
  }

  lemma {:induction false} DigitsAreAscii(n: nat)
    ensures IsAscii(Digits(n))
  {
    if n >= 10 { DigitsAreAscii(n / 10); }
  }

  lemma OtherScalarIsAscii(v: Scalar)
    requires ValidScalar(v) && !v.Plain?
    ensures IsAscii(ScalarBytes(v))
  {
    if v.Number? { DigitsAreAscii(if v.n < 0 then -v.n else v.n); }
  }

  lemma ScalarUtf8(v: Scalar, t: Text)
    requires ValidScalar(v)
    ensures ValidUtf8(ScalarBytes(v) + t) <==> (v.Plain? ==> ValidUtf8(v.text)) && ValidUtf8(t)
  {
    if v.Plain? {
      QuotedUtf8(v.text, t);
    } else {
      OtherScalarIsAscii(v);
      Utf8BehindAscii(ScalarBytes(v), t);
    }
  }

  lemma MemberBytesUtf8(m: Member, t: Text)
    requires ValidScalar(m.1)
    ensures ValidUtf8(MemberBytes(m) + t) <==> MemberUtf8(m) && ValidUtf8(t)
  {
    MemberSplits(m, t, MemberBytes(m) + t);
    QuotedUtf8(m.0, [COLON] + (ScalarBytes(m.1) + t));
    Utf8Behind(COLON, ScalarBytes(m.1) + t);
    ScalarUtf8(m.1, t);
  }

  lemma {:induction false} ListedUtf8(first: bool, ms: seq<Member>, t: Text)
    requires ValidMembers(ms)
    ensures ValidUtf8(Listed(first, ms) + t) <==> AllUtf8(ms) && ValidUtf8(t)
    decreases |ms|
  {
    if ms == [] {
      assert [] + t == t;
    } else {
      var rest := Listed(false, ms[1..]) + t;
      ListedUtf8(false, ms[1..], t);
      MemberBytesUtf8(ms[0], rest);
      Utf8Behind(COMMA, MemberBytes(ms[0]) + rest);
      CommaOrNot(first, MemberBytes(ms[0]), Listed(false, ms[1..]), t);
      assert AllUtf8(ms) <==> MemberUtf8(ms[0]) && AllUtf8(ms[1..]) by { FirstAndRest(ms); }
    }
  }

  lemma FirstAndRest(ms: seq<Member>)
    requires ms != []
    ensures AllUtf8(ms) <==> MemberUtf8(ms[0]) && AllUtf8(ms[1..])
  {
    assert ms == [ms[0]] + ms[1..];
  }

  lemma CommaOrNot(first: bool, a: Text, b: Text, t: Text)
    ensures (if first then a + b else [COMMA] + (a + b)) + t == if first then a + (b + t) else [COMMA] + (a + (b + t))
  {}

  lemma ObjectUtf8(ms: seq<Member>, t: Text)
    requires ValidMembers(ms)
    ensures ValidUtf8(ObjectBytes(ms) + t) <==> AllUtf8(ms) && ValidUtf8(t)
  {
    assert ObjectBytes(ms) + t == [OPEN_BRACE] + (Listed(true, ms) + ([CLOSE_BRACE] + t));
    Utf8Behind(OPEN_BRACE, Listed(true, ms) + ([CLOSE_BRACE] + t));
    ListedUtf8(true, ms, [CLOSE_BRACE] + t);
    Utf8Behind(CLOSE_BRACE, t);
  }

  lemma {:induction false} ItemsBytesUtf8(first: bool, items: seq<seq<Member>>, t: Text)
    requires forall i :: 0 <= i < |items| ==> ValidMembers(items[i])
    ensures ValidUtf8(ItemsBytes(first, items) + t) <==> ItemsUtf8(items) && ValidUtf8(t)
    decreases |items|
  {
    if items == [] {
      assert [] + t == t;
    } else {
      var rest := ItemsBytes(false, items[1..]) + t;
      ItemsBytesUtf8(false, items[1..], t);
      ObjectUtf8(items[0], rest);
      Utf8Behind(COMMA, ObjectBytes(items[0]) + rest);
      CommaOrNot(first, ObjectBytes(items[0]), ItemsBytes(false, items[1..]), t);
      FirstItemAndRest(items);
    }
  }

  lemma FirstItemAndRest(items: seq<seq<Member>>)
    requires items != []
    ensures ItemsUtf8(items) <==> AllUtf8(items[0]) && ItemsUtf8(items[1..])
  {
    assert items == [items[0]] + items[1..];
  }

  lemma ContextIsUtf8()
    ensures MemberUtf8(CONTEXT) && ValidUtf8(AT_CONTEXT) && ValidUtf8(AT_GRAPH)
  {
    AsciiIsUtf8(AT_CONTEXT);
    AsciiIsUtf8(AT_GRAPH);
    AsciiIsUtf8(SCHEMA_URL);
  }

  /** A map of well-formed members is a well-formed object. */
  lemma {:induction false} MapIsWellFormed(ms: seq<Member>)
    requires ValidMembers(ms) && AllUtf8(ms)
    ensures WellFormed(JObject(JsonMap(MapOf(ms))))
  {
    if ms != [] {
      var n := |ms| - 1;
      MapIsWellFormed(ms[..n]);
      assert MemberUtf8(ms[n]);
      TextIsWellFormed(ms[n].1);
    }
  }

  lemma TextIsWellFormed(v: Scalar)
    requires ValidScalar(v) && (v.Plain? ==> ValidUtf8(v.text))
    ensures WellFormed(AsJson(v))
  {
    if v.Leaf? { AsciiIsUtf8(v.text); }
  }
}
