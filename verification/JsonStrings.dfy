/** JSON strings as bytes: how the serializer escapes them and how section 7 of
    RFC 8259 reads them (serializer/fastld.go:353-443). */
module JsonStrings {
  type Byte = b: int | 0 <= b < 0x100
  type Text = seq<Byte>

  const QUOTE: Byte := 0x22
  const BACKSLASH: Byte := 0x5C
  const SLASH: Byte := 0x2F
  const LETTER_U: Byte := 0x75

  /** htmlSafeSet. */
  predicate Safe(b: Byte) {
    0x20 <= b < 0x80 && b != QUOTE && b != BACKSLASH && b != 0x3C && b != 0x3E && b != 0x26
  }

  function HexDigit(n: int): Byte
    requires 0 <= n < 16
  {
    if n < 10 then 0x30 + n else 0x61 + n - 10
  }

  /** The UTF-8 bytes of U+2028 or U+2029. */
  predicate LineSeparator(s: Text) {
    |s| >= 3 && s[0] == 0xE2 && s[1] == 0x80 && (s[2] == 0xA8 || s[2] == 0xA9)
  }

  function EscapeAscii(b: Byte): Text
    requires b < 0x80
  {
    if Safe(b) then [b]
    else if b == BACKSLASH || b == QUOTE then [BACKSLASH, b]
    else if b == 0x0A then [BACKSLASH, 0x6E]
    else if b == 0x0D then [BACKSLASH, 0x72]
    else if b == 0x09 then [BACKSLASH, 0x74]
    else [BACKSLASH, LETTER_U, 0x30, 0x30, HexDigit(b / 16), HexDigit(b % 16)]
  }

  /** The escaping, byte by byte; only the line separators are seen whole. */
  function Escape(s: Text): Text {
    if s == [] then []
    else if s[0] < 0x80 then EscapeAscii(s[0]) + Escape(s[1..])
    else if LineSeparator(s) then
      SeparatorEscape(s[2]) + Escape(s[3..])
    else [s[0]] + Escape(s[1..])
  }

  function SeparatorEscape(last: Byte): Text {
    [BACKSLASH, LETTER_U, 0x32, 0x30, 0x32, if last == 0xA8 then 0x38 else 0x39]
  }

  // --------------------------------------------------- reading

  function HexValue(b: Byte): (n: int)
    ensures -1 <= n < 16
  {
    if 0x30 <= b <= 0x39 then b - 0x30
    else if 0x61 <= b <= 0x66 then b - 0x61 + 10
    else if 0x41 <= b <= 0x46 then b - 0x41 + 10
    else -1
  }

  /** \uXXXX at the front: the code unit, or -1. */
  function CodeUnit(t: Text): (n: int)
    ensures -1 <= n < 0x10000
  {
    if |t| < 6 || t[0] != BACKSLASH || t[1] != LETTER_U then -1
    else
      var a, b, c, d := HexValue(t[2]), HexValue(t[3]), HexValue(t[4]), HexValue(t[5]);
      if a < 0 || b < 0 || c < 0 || d < 0 then -1 else ((a * 16 + b) * 16 + c) * 16 + d
  }

  function Utf8(code: int): Text
    requires 0 <= code < 0x110000
  {
    if code < 0x80 then [code]
    else if code < 0x800 then [0xC0 + code / 0x40, 0x80 + code % 0x40]
    else if code < 0x10000 then [0xE0 + code / 0x1000, 0x80 + code / 0x40 % 0x40, 0x80 + code % 0x40]
    else [0xF0 + code / 0x40000, 0x80 + code / 0x1000 % 0x40, 0x80 + code / 0x40 % 0x40, 0x80 + code % 0x40]
  }

  datatype Read<T> = Done(value: T, rest: Text) | Bad

  function Prepend(head: Text, r: Read<Text>): Read<Text> {
    match r case Done(value, rest) => Done(head + value, rest) case Bad => Bad
  }

  /** What a two-character escape stands for, or -1. */
  function ShortEscape(b: Byte): (c: int)
    ensures -1 <= c < 0x80
  {
    if b == QUOTE || b == BACKSLASH || b == SLASH then b
    else if b == 0x62 then 0x08
    else if b == 0x66 then 0x0C
    else if b == 0x6E then 0x0A
    else if b == 0x72 then 0x0D
    else if b == 0x74 then 0x09
    else -1
  }

  /** A string read from behind its opening quote to its closing one. Code units
      of surrogate pairs are joined, lone ones refused. */
  function ReadString(t: Text): (r: Read<Text>)
    ensures r.Done? ==> |r.rest| < |t|
  {
    if t == [] || t[0] < 0x20 then Bad
    else if t[0] == QUOTE then Done([], t[1..])
    else if t[0] != BACKSLASH then Prepend([t[0]], ReadString(t[1..]))
    else if |t| > 1 && ShortEscape(t[1]) >= 0 then Prepend([ShortEscape(t[1])], ReadString(t[2..]))
    else
      var unit := CodeUnit(t);
      if unit < 0 then Bad
      else if unit < 0xD800 || unit >= 0xE000 then Prepend(Utf8(unit), ReadString(t[6..]))
      else
        var low := CodeUnit(t[6..]);
        if unit < 0xDC00 && 0xDC00 <= low < 0xE000 then
          Prepend(Utf8(0x10000 + (unit - 0xD800) * 0x400 + (low - 0xDC00)), ReadString(t[12..]))
        else Bad
  }

  // --------------------------------------------------- what escaping achieves

  lemma HexValueOfDigit(n: int)
    requires 0 <= n < 16
    ensures HexValue(HexDigit(n)) == n
  {}

  lemma ReadControl(b: Byte, t: Text)
    requires b < 0x80
    ensures CodeUnit([BACKSLASH, LETTER_U, 0x30, 0x30, HexDigit(b / 16), HexDigit(b % 16)] + t) == b
  {
    HexValueOfDigit(b / 16);
    HexValueOfDigit(b % 16);
  }

  lemma ReadSeparator(last: Byte, t: Text)
    requires last == 0x38 || last == 0x39
    ensures
      var escape := [BACKSLASH, LETTER_U, 0x32, 0x30, 0x32, last];
      CodeUnit(escape + t) == 0x2028 + (last - 0x38) && Utf8(0x2028 + (last - 0x38)) == [0xE2, 0x80, 0xA8 + (last - 0x38)]
  {}

  lemma ReadEscapedAscii(b: Byte, t: Text)
    requires b < 0x80
    ensures ReadString(EscapeAscii(b) + t) == Prepend([b], ReadString(t))
  {
    var e := EscapeAscii(b);
    if |e| == 6 { ReadControl(b, t); }
    assert (e + t)[|e|..] == t;
  }

  lemma ReadEscapedSeparator(last: Byte, t: Text)
    requires last == 0x38 || last == 0x39
    ensures ReadString([BACKSLASH, LETTER_U, 0x32, 0x30, 0x32, last] + t) == Prepend([0xE2, 0x80, 0xA8 + (last - 0x38)], ReadString(t))
  {
    ReadSeparator(last, t);
    assert ([BACKSLASH, LETTER_U, 0x32, 0x30, 0x32, last] + t)[6..] == t;
  }

  lemma ReadRaw(b: Byte, t: Text)
    requires b >= 0x80
    ensures ReadString([b] + t) == Prepend([b], ReadString(t))
  {
    assert ([b] + t)[1..] == t;
  }

  /** The first escape and how many bytes it stands for. */
  function FirstEscape(s: Text): (r: (Text, nat))
    requires s != []
    ensures 0 < r.1 <= |s| && Escape(s) == r.0 + Escape(s[r.1..])
  {
    if s[0] < 0x80 then (EscapeAscii(s[0]), 1)
    else if LineSeparator(s) then (SeparatorEscape(s[2]), 3)
    else ([s[0]], 1)
  }

  lemma FirstEscapeReads(s: Text, t: Text)
    requires s != []
    ensures var (e, k) := FirstEscape(s); ReadString(e + t) == Prepend(s[..k], ReadString(t))
  {
    if s[0] < 0x80 {
      ReadEscapedAscii(s[0], t);
      assert s[..1] == [s[0]];
    } else if LineSeparator(s) {
      var last := if s[2] == 0xA8 then 0x38 else 0x39;
      ReadEscapedSeparator(last, t);
      assert s[..3] == [0xE2, 0x80, 0xA8 + (last - 0x38)];
    } else {
      ReadRaw(s[0], t);
      assert s[..1] == [s[0]];
    }
  }

  /** Reading what was escaped gives back the bytes, and stops at the quote. */
  lemma {:induction false} EscapeReadsBack(s: Text, rest: Text)
    ensures ReadString(Escape(s) + [QUOTE] + rest) == Done(s, rest)
    decreases |s|
  {
    if s == [] {
      assert [] + [QUOTE] + rest == [QUOTE] + rest;
    } else {
      var (e, k) := FirstEscape(s);
      EscapeReadsBack(s[k..], rest);
      FirstEscapeReads(s, Escape(s[k..]) + [QUOTE] + rest);
      Regroup(e, Escape(s[k..]), [QUOTE], rest);
      assert s == s[..k] + s[k..];
    }
  }

  /** Harmless inside a script: no control byte, quote, angle bracket, ampersand
      or line separator outside an escape, and every backslash starts one. */
  predicate Harmless(t: Text) {
    if t == [] then true
    else if t[0] == BACKSLASH then
      if CodeUnit(t) >= 0 then Harmless(t[6..]) else |t| > 1 && ShortEscape(t[1]) >= 0 && Harmless(t[2..])
    else (Safe(t[0]) || t[0] >= 0x80) && !LineSeparator(t) && Harmless(t[1..])
  }

  lemma EscapedAsciiIsHarmless(b: Byte, t: Text)
    requires b < 0x80 && Harmless(t)
    ensures Harmless(EscapeAscii(b) + t)
  {
    var e := EscapeAscii(b);
    if |e| == 6 { ReadControl(b, t); }
    assert (e + t)[|e|..] == t;
  }

  /** Escaping never creates a line separator the text did not have. */
  lemma SeparatorIsOriginal(s: Text)
    requires s != [] && s[0] >= 0x80 && !LineSeparator(s)
    ensures !LineSeparator([s[0]] + Escape(s[1..]))
  {
    var t := Escape(s[1..]);
    if |s| > 1 {
      NextIsOriginal(s[1..]);
      if |s| > 2 && s[1] >= 0x80 { NextIsOriginal(s[2..]); }
    }
  }

  /** A high byte at the front of the escaped text is the text's own. */
  lemma NextIsOriginal(s: Text)
    requires s != []
    ensures Escape(s) != [] && (Escape(s)[0] >= 0x80 ==> s[0] == Escape(s)[0] && Escape(s) == [s[0]] + Escape(s[1..]))
  {}

  lemma {:induction false} EscapeIsHarmless(s: Text)
    ensures Harmless(Escape(s))
    decreases |s|
  {
    if s != [] {
      if s[0] < 0x80 {
        EscapeIsHarmless(s[1..]);
        EscapedAsciiIsHarmless(s[0], Escape(s[1..]));
      } else if LineSeparator(s) {
        EscapeIsHarmless(s[3..]);
        var last := if s[2] == 0xA8 then 0x38 else 0x39;
        ReadSeparator(last, Escape(s[3..]));
        assert ([BACKSLASH, LETTER_U, 0x32, 0x30, 0x32, last] + Escape(s[3..]))[6..] == Escape(s[3..]);
      } else {
        EscapeIsHarmless(s[1..]);
        SeparatorIsOriginal(s);
        assert ([s[0]] + Escape(s[1..]))[1..] == Escape(s[1..]);
      }
    }
  }

  lemma SeparatorBefore(a: Text, tail: Text)
    requires a != [] && tail != [] && tail[0] < 0x80 && a[0] >= 0x80
    ensures LineSeparator(a + tail) <==> LineSeparator(a)
  {
    var whole := a + tail;
    assert whole[0] == a[0];
    if |a| == 1 { assert whole[1] == tail[0]; }
    if |a| == 2 { assert whole[1] == a[1] && whole[2] == tail[0]; }
    if |a| >= 3 { assert whole[1] == a[1] && whole[2] == a[2]; }
  }

  /** An ASCII byte behind a text does not change its first escape. */
  lemma FirstEscapeBefore(a: Text, tail: Text)
    requires a != [] && tail != [] && tail[0] < 0x80
    ensures FirstEscape(a + tail) == FirstEscape(a)
  {
    assert (a + tail)[0] == a[0];
    if a[0] >= 0x80 { SeparatorBefore(a, tail); }
    if |a| >= 3 { assert (a + tail)[2] == a[2]; }
  }

  /** Pieces: an ASCII byte between two texts keeps their escapes apart. */
  lemma {:induction false} EscapeInPieces(a: Text, tail: Text)
    requires tail != [] && tail[0] < 0x80
    ensures Escape(a + tail) == Escape(a) + EscapeAscii(tail[0]) + Escape(tail[1..])
    decreases |a|
  {
    if a == [] {
      assert a + tail == tail;
    } else {
      var (e, k) := FirstEscape(a);
      FirstEscapeBefore(a, tail);
      assert (a + tail)[k..] == a[k..] + tail;
      EscapeInPieces(a[k..], tail);
      Regroup(e, Escape(a[k..]), EscapeAscii(tail[0]), Escape(tail[1..]));
    }
  }

  lemma Regroup(a: Text, b: Text, c: Text, d: Text)
    ensures a + (b + c + d) == (a + b) + c + d
  {}

  /** Bytes that need no escape stay as they are. */
  lemma {:induction false} SafeIsUnchanged(s: Text)
    requires forall i :: 0 <= i < |s| ==> Safe(s[i])
    ensures Escape(s) == s
  {
    if s != [] {
      SafeIsUnchanged(s[1..]);
      assert s == [s[0]] + s[1..];
    }
  }

  // --------------------------------------------------- the writer

  class Buffer {
    var contents: Text

    constructor ()
      ensures contents == []
    {
      contents := [];
    }

    method Write(t: Text)
      modifies this
      ensures contents == old(contents) + t
    {
      contents := contents + t;
    }
  }

  /** One escape at position i, and how far it reaches. */
  lemma EscapeFrom(s: Text, i: nat)
    requires i < |s|
    ensures
      var tail := s[i..];
      Escape(tail) ==
        if s[i] < 0x80 then EscapeAscii(s[i]) + Escape(s[i + 1..])
        else if LineSeparator(tail) then SeparatorEscape(s[i + 2]) + Escape(s[i + 3..])
        else [s[i]] + Escape(s[i + 1..])
  {
    var tail := s[i..];
    assert tail[0] == s[i] && tail[1..] == s[i + 1..];
    if LineSeparator(tail) { assert tail[2] == s[i + 2] && tail[3..] == s[i + 3..]; }
  }

  /** What the writer has written so far, the chunk it holds back, and the rest. */
  ghost predicate Written(before: Text, s: Text, start: int, i: int, now: Text) {
    0 <= start <= i <= |s| && before + Escape(s) == now + s[start..i] + Escape(s[i..])
  }

  /** A byte that needs no escape joins the chunk. */
  lemma ChunkGrows(before: Text, s: Text, start: nat, i: nat, now: Text)
    requires Written(before, s, start, i, now) && i < |s|
    requires Escape(s[i..]) == [s[i]] + Escape(s[i + 1..])
    ensures Written(before, s, start, i + 1, now)
  {
    assert s[start..i + 1] == s[start..i] + [s[i]];
    assert now + s[start..i + 1] + Escape(s[i + 1..]) == now + s[start..i] + ([s[i]] + Escape(s[i + 1..]));
  }

  /** The chunk and an escape are written. */
  lemma ChunkWritten(before: Text, s: Text, start: nat, i: nat, now: Text, e: Text, next: nat)
    requires Written(before, s, start, i, now) && i < next <= |s| && Escape(s[i..]) == e + Escape(s[next..])
    ensures Written(before, s, next, next, now + s[start..i] + e)
  {
    assert s[next..next] == [];
    assert now + s[start..i] + e + [] + Escape(s[next..]) == now + s[start..i] + (e + Escape(s[next..]));
  }

  method WriteJSONStringBody(buf: Buffer, s: Text)
    modifies buf
    ensures buf.contents == old(buf.contents) + Escape(s)
  {
    var start, i := 0, 0;
    assert s[0..] == s && s[0..0] == [];
    while i < |s|
      invariant Written(old(buf.contents), s, start, i, buf.contents)
      decreases |s| - i
    {
      start, i := WriteNext(buf, s, start, i, old(buf.contents));
    }
    assert s[|s|..] == [];
    if start < |s| {
      buf.Write(s[start..]);
    } else {
      assert s[start..] == [];
    }
    assert s[start..] == s[start..|s|];
  }

  method WriteEscape(buf: Buffer, b: Byte)
    requires b < 0x80 && !Safe(b)
    modifies buf
    ensures buf.contents == old(buf.contents) + EscapeAscii(b)
  {
    buf.Write([BACKSLASH]);
    if b == BACKSLASH || b == QUOTE {
      buf.Write([b]);
    } else if b == 0x0A {
      buf.Write([0x6E]);
    } else if b == 0x0D {
      buf.Write([0x72]);
    } else if b == 0x09 {
      buf.Write([0x74]);
    } else {
      buf.Write([LETTER_U, 0x30, 0x30]);
      buf.Write([HexDigit(b / 16)]);
      buf.Write([HexDigit(b % 16)]);
    }
  }

  /** The chunk, then an escape. */
  method Flush(buf: Buffer, s: Text, start: nat, i: nat)
    requires start <= i <= |s|
    modifies buf
    ensures buf.contents == old(buf.contents) + s[start..i]
  {
    if start < i { buf.Write(s[start..i]); }
  }

  /** One round of the loop. */
  method WriteNext(buf: Buffer, s: Text, start0: nat, i0: nat, ghost before: Text) returns (start: nat, i: nat)
    requires Written(before, s, start0, i0, buf.contents) && i0 < |s|
    modifies buf
    ensures Written(before, s, start, i, buf.contents) && i > i0
  {
    start, i := start0, i0;
    EscapeFrom(s, i);
    var b := s[i];
    if b < 0x80 {
      if Safe(b) {
        ChunkGrows(before, s, start, i, buf.contents);
        i := i + 1;
        return;
      }
      ChunkWritten(before, s, start, i, buf.contents, EscapeAscii(b), i + 1);
      Flush(buf, s, start, i);
      WriteEscape(buf, b);
      i := i + 1;
      start := i;
      return;
    }
    if i + 2 < |s| && s[i] == 0xE2 && s[i + 1] == 0x80 && (s[i + 2] == 0xA8 || s[i + 2] == 0xA9) {
      ChunkWritten(before, s, start, i, buf.contents, SeparatorEscape(s[i + 2]), i + 3);
      Flush(buf, s, start, i);
      WriteSeparatorEscape(buf, s[i + 2]);
      i := i + 3;
      start := i;
      return;
    }
    ChunkGrows(before, s, start, i, buf.contents);
    i := i + 1;
  }

  method WriteSeparatorEscape(buf: Buffer, last: Byte)
    modifies buf
    ensures buf.contents == old(buf.contents) + SeparatorEscape(last)
  {
    buf.Write([BACKSLASH, LETTER_U, 0x32, 0x30, 0x32]);
    if last == 0xA8 {
      buf.Write([0x38]);
    } else {
      buf.Write([0x39]);
    }
  }

  /** The shortcut for ids: bytes without escapes go out as they are. */
  method WriteJSONStringBodyBytes(buf: Buffer, b: Text)
    modifies buf
    ensures buf.contents == old(buf.contents) + Escape(b)
  {
    for i := 0 to |b|
      invariant buf.contents == old(buf.contents)
      invariant forall k :: 0 <= k < i ==> Safe(b[k])
    {
      if b[i] >= 0x80 || !Safe(b[i]) {
        WriteJSONStringBody(buf, b);
        return;
      }
    }
    SafeIsUnchanged(b);
    buf.Write(b);
  }

  method WriteJSONString(buf: Buffer, s: Text)
    modifies buf
    ensures buf.contents == old(buf.contents) + [QUOTE] + Escape(s) + [QUOTE]
  {
    buf.Write([QUOTE]);
    WriteJSONStringBody(buf, s);
    buf.Write([QUOTE]);
  }
}
