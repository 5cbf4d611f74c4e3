/** Well-formed UTF-8 (table 3-7 of the Unicode standard) and the encoder's
    replacement of bytes that are not (unicode/utf8 as encoding/json uses it for
    the map path, serializer/serializer.go:157-168). */
module Utf8Texts {
  import opened JsonStrings

  predicate Continues(b: Byte) {
    0x80 <= b < 0xC0
  }

  /** How many bytes a leading byte announces, 0 if it cannot lead. */
  function Announced(lead: Byte): nat {
    if lead < 0x80 then 1
    else if 0xC2 <= lead < 0xE0 then 2
    else if 0xE0 <= lead < 0xF0 then 3
    else if 0xF0 <= lead < 0xF5 then 4
    else 0
  }

  /** No overlong forms, no surrogates, nothing above U+10FFFF. */
  predicate Second(lead: Byte, b: Byte) {
    && Continues(b) && (lead == 0xE0 ==> b >= 0xA0) && (lead == 0xED ==> b < 0xA0)
    && (lead == 0xF0 ==> b >= 0x90) && (lead == 0xF4 ==> b < 0x90)
  }

  /** The size of the character at the front, 0 if there is none. */
  function RuneSize(s: Text): (k: nat)
    requires s != []
    ensures k <= |s|
  {
    var k := Announced(s[0]);
    if k <= |s| && (k >= 2 ==> Second(s[0], s[1])) && (k >= 3 ==> Continues(s[2])) && (k >= 4 ==> Continues(s[3])) then k else 0
  }

  predicate ValidUtf8(s: Text) {
    s == [] || (RuneSize(s) > 0 && ValidUtf8(s[RuneSize(s)..]))
  }

  const REPLACEMENT: Text := [0xEF, 0xBF, 0xBD]

  /** Every byte that is not part of a character becomes U+FFFD. */
  function ToValid(s: Text): Text {
    if s == [] then []
    else if RuneSize(s) == 0 then REPLACEMENT + ToValid(s[1..])
    else s[..RuneSize(s)] + ToValid(s[RuneSize(s)..])
  }

  // --------------------------------------------------- what it means

  /** The characters that have an encoding: no surrogates. */
  type Character = c: int | 0 <= c < 0xD800 || 0xE000 <= c < 0x110000

  function Encoded(cs: seq<Character>): Text {
    if cs == [] then [] else Utf8(cs[0]) + Encoded(cs[1..])
  }

  lemma RuneOfCharacter(c: Character, t: Text)
    ensures RuneSize(Utf8(c) + t) == |Utf8(c)|
  {
    var s := Utf8(c) + t;
    assert forall i :: 0 <= i < |Utf8(c)| ==> s[i] == Utf8(c)[i];
  }

  lemma {:induction false} EncodedIsValid(cs: seq<Character>)
    ensures ValidUtf8(Encoded(cs))
  {
    if cs != [] {
      var e, rest := Utf8(cs[0]), Encoded(cs[1..]);
      EncodedIsValid(cs[1..]);
      RuneOfCharacter(cs[0], rest);
      assert (e + rest)[|e|..] == rest;
    }
  }

  lemma Bits(x: nat, y: nat)
    requires y < 0x40
    ensures (x * 0x40 + y) / 0x40 == x && (x * 0x40 + y) % 0x40 == y
  {}

  lemma HighBits(c: nat)
    ensures c / 0x1000 == c / 0x40 / 0x40 && c / 0x40000 == c / 0x1000 / 0x40
  {}

  lemma CharacterOfRune(s: Text) returns (c: Character)
    requires s != [] && RuneSize(s) > 0
    ensures Utf8(c) == s[..RuneSize(s)]
  {
    match RuneSize(s)
    case 1 => c := s[0];
    case 2 => c := CharacterOf2(s[0], s[1]);
    case 3 => c := CharacterOf3(s[0], s[1], s[2]);
    case _ => c := CharacterOf4(s[0], s[1], s[2], s[3]);
  }

  lemma CharacterOf2(lead: Byte, b: Byte) returns (c: Character)
    requires Announced(lead) == 2 && Second(lead, b)
    ensures Utf8(c) == [lead, b]
  {
    var x: int, y: int := lead, b;
    Bits(x - 0xC0, y - 0x80);
    return (x - 0xC0) * 0x40 + (y - 0x80);
  }

  lemma CharacterOf3(lead: Byte, b: Byte, d: Byte) returns (c: Character)
    requires Announced(lead) == 3 && Second(lead, b) && Continues(d)
    ensures Utf8(c) == [lead, b, d]
  {
    var x: int, y: int, z: int := lead, b, d;
    var high := (x - 0xE0) * 0x40 + (y - 0x80);
    Bits(x - 0xE0, y - 0x80);
    Bits(high, z - 0x80);
    HighBits(high * 0x40 + (z - 0x80));
    return high * 0x40 + (z - 0x80);
  }

  lemma CharacterOf4(lead: Byte, b: Byte, d: Byte, e: Byte) returns (c: Character)
    requires Announced(lead) == 4 && Second(lead, b) && Continues(d) && Continues(e)
    ensures Utf8(c) == [lead, b, d, e]
  {
    var x: int, y: int, z: int, w: int := lead, b, d, e;
    var top := (x - 0xF0) * 0x40 + (y - 0x80);
    var high := top * 0x40 + (z - 0x80);
    Bits(x - 0xF0, y - 0x80);
    Bits(top, z - 0x80);
    Bits(high, w - 0x80);
    HighBits(high * 0x40 + (w - 0x80));
    return high * 0x40 + (w - 0x80);
  }

  lemma {:induction false} Decoded(s: Text) returns (cs: seq<Character>)
    requires ValidUtf8(s)
    ensures Encoded(cs) == s
    decreases |s|
  {
    if s == [] { return []; }
    var k := RuneSize(s);
    var c := CharacterOfRune(s);
    var rest := Decoded(s[k..]);
    cs := [c] + rest;
    assert cs[1..] == rest;
    assert s == s[..k] + s[k..];
  }

  /** The well-formed texts are the encodings of sequences of characters. */
  lemma ValidIsEncoded(s: Text)
    ensures ValidUtf8(s) <==> exists cs :: Encoded(cs) == s
  {
    if ValidUtf8(s) { var cs := Decoded(s); }
    if cs :| Encoded(cs) == s { EncodedIsValid(cs); }
  }

  // --------------------------------------------------- replacing

  lemma RuneInFront(s: Text, t: Text)
    requires s != [] && RuneSize(s) > 0
    ensures RuneSize(s[..RuneSize(s)] + t) == RuneSize(s)
  {
    var front := s[..RuneSize(s)];
    assert forall i :: 0 <= i < |front| ==> (front + t)[i] == s[i];
  }

  /** What the encoder writes is well formed, and a well-formed text is left as
      it is: a text is unchanged exactly when it is well formed. */
  lemma {:induction false} ToValidIsValid(s: Text)
    ensures ValidUtf8(ToValid(s)) && (ValidUtf8(s) ==> ToValid(s) == s)
    decreases |s|
  {
    if s != [] {
      var k := RuneSize(s);
      if k == 0 {
        var rest := ToValid(s[1..]);
        ToValidIsValid(s[1..]);
        assert RuneSize(REPLACEMENT + rest) == 3 && (REPLACEMENT + rest)[3..] == rest;
      } else {
        var rest := ToValid(s[k..]);
        ToValidIsValid(s[k..]);
        RuneInFront(s, rest);
        assert (s[..k] + rest)[k..] == rest;
        assert s[..k] + s[k..] == s;
      }
    }
  }

  // --------------------------------------------------- pieces

  /** A byte that does not continue a character may follow any text. */
  lemma RuneBefore(a: Text, tail: Text)
    requires a != [] && (tail != [] ==> tail[0] < 0x80)
    ensures RuneSize(a + tail) == RuneSize(a)
  {
    var s := a + tail;
    assert forall i :: 0 <= i < |a| ==> s[i] == a[i];
    if tail != [] { assert s[|a|] == tail[0]; }
  }

  lemma {:induction false} Utf8InPieces(a: Text, tail: Text)
    requires tail != [] ==> tail[0] < 0x80
    ensures ValidUtf8(a + tail) <==> ValidUtf8(a) && ValidUtf8(tail)
    decreases |a|
  {
    if a == [] {
      assert a + tail == tail;
    } else {
      RuneBefore(a, tail);
      var k := RuneSize(a);
      if k > 0 {
        assert (a + tail)[k..] == a[k..] + tail;
        Utf8InPieces(a[k..], tail);
      }
    }
  }

  predicate IsAscii(s: Text) {
    forall i :: 0 <= i < |s| ==> s[i] < 0x80
  }

  lemma {:induction false} Utf8BehindAscii(a: Text, t: Text)
    requires IsAscii(a)
    ensures ValidUtf8(a + t) <==> ValidUtf8(t)
  {
    if a == [] {
      assert a + t == t;
    } else {
      assert (a + t)[1..] == a[1..] + t;
      Utf8BehindAscii(a[1..], t);
    }
  }

  lemma AsciiIsUtf8(a: Text)
    requires IsAscii(a)
    ensures ValidUtf8(a)
  {
    Utf8BehindAscii(a, []);
    assert a + [] == a;
  }

  // --------------------------------------------------- escaping

  lemma NextByte(s: Text)
    ensures s != [] && Continues(s[0]) <==> Escape(s) != [] && Continues(Escape(s)[0])
    ensures s != [] && Continues(s[0]) ==> Escape(s) == [s[0]] + Escape(s[1..])
    ensures s == [] <==> Escape(s) == []
  {}

  /** While characters continue, on either side, nothing is escaped. */
  lemma {:induction false} EscapeRuns(s: Text, j: nat)
    requires s != [] && s[0] >= 0x80 && !LineSeparator(s) && j >= 1
    requires Continuing(s, j) || Continuing(Escape(s), j)
    ensures j <= |s| && j <= |Escape(s)| && Escape(s) == s[..j] + Escape(s[j..])
  {
    if j == 1 {
      assert s[..1] == [s[0]];
    } else {
      EscapeRuns(s, j - 1);
      var tail := s[j - 1..];
      assert Escape(s)[j - 1..] == Escape(tail);
      NextByte(tail);
      assert tail[1..] == s[j..] && s[..j] == s[..j - 1] + [tail[0]];
    }
  }

  predicate Continuing(s: Text, j: nat) {
    j <= |s| && forall i :: 1 <= i < j ==> Continues(s[i])
  }

  lemma RuneContinues(s: Text)
    requires s != [] && RuneSize(s) > 0
    ensures Continuing(s, RuneSize(s))
  {}

  /** A character that is not escaped stands in front of the escaped text as it
      does in front of the text; half a one stays half a one. */
  lemma RuneOfEscape(s: Text)
    requires s != [] && s[0] >= 0x80 && !LineSeparator(s)
    ensures RuneSize(Escape(s)) == RuneSize(s) && (RuneSize(s) > 0 ==> Escape(s)[RuneSize(s)..] == Escape(s[RuneSize(s)..]))
  {
    var e := Escape(s);
    assert e[0] == s[0];
    var k := if RuneSize(s) > 0 then RuneSize(s) else RuneSize(e);
    if k > 0 {
      if RuneSize(s) > 0 { RuneContinues(s); } else { RuneContinues(e); }
      EscapeRuns(s, k);
      SameRune(s, e, k);
    }
  }

  lemma SameRune(s: Text, e: Text, k: nat)
    requires 1 <= k <= |s| && k <= |e| && e[..k] == s[..k] && (RuneSize(s) == k || RuneSize(e) == k)
    ensures RuneSize(e) == RuneSize(s)
  {
    assert forall i :: 0 <= i < k ==> e[i] == e[..k][i] && s[i] == s[..k][i];
  }

  lemma EscapedAsciiIsAscii(b: Byte)
    requires b < 0x80
    ensures IsAscii(EscapeAscii(b))
  {}

  lemma SeparatorIsRune(s: Text)
    requires LineSeparator(s)
    ensures RuneSize(s) == 3
  {}

  /** Escaping neither mends nor breaks a text's encoding. */
  lemma {:induction false} EscapeKeepsUtf8(s: Text)
    ensures ValidUtf8(Escape(s)) <==> ValidUtf8(s)
    decreases |s|
  {
    if s != [] {
      if s[0] < 0x80 {
        EscapedAsciiIsAscii(s[0]);
        Utf8BehindAscii(EscapeAscii(s[0]), Escape(s[1..]));
        EscapeKeepsUtf8(s[1..]);
      } else if LineSeparator(s) {
        SeparatorIsRune(s);
        Utf8BehindAscii(SeparatorEscape(s[2]), Escape(s[3..]));
        EscapeKeepsUtf8(s[3..]);
      } else {
        RuneOfEscape(s);
        if RuneSize(s) > 0 { EscapeKeepsUtf8(s[RuneSize(s)..]); }
      }
    }
  }
}
