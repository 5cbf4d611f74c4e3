/** JSON values and how bytes are read as values (RFC 8259, sections 3 to 7,
    without white space, which the serializer never writes). */
module JsonValues {
  import opened JsonStrings
  import opened Utf8Texts

  datatype Json = JText(text: Text) | JFlag(flag: bool) | JNumber(n: int) | JObject(members: map<Text, Json>) | JArray(items: seq<Json>)

  const OPEN_BRACE: Byte := 0x7B
  const CLOSE_BRACE: Byte := 0x7D
  const OPEN_BRACKET: Byte := 0x5B
  const CLOSE_BRACKET: Byte := 0x5D
  const COMMA: Byte := 0x2C
  const COLON: Byte := 0x3A
  const MINUS: Byte := 0x2D
  const TRUE_TEXT: Text := [0x74, 0x72, 0x75, 0x65]
  const FALSE_TEXT: Text := [0x66, 0x61, 0x6C, 0x73, 0x65]

  predicate IsDigit(b: Byte) {
    0x30 <= b <= 0x39
  }

  // --------------------------------------------------- numbers

  function Digits(n: nat): (t: Text)
    ensures t != [] && IsDigit(t[0])
  {
    if n < 10 then [0x30 + n] else Digits(n / 10) + [0x30 + n % 10]
  }

  /** strconv.AppendInt and AppendUint in base ten. */
  function NumberText(n: int): Text {
    if n < 0 then [MINUS] + Digits(-n) else Digits(n)
  }

  /** A zero before other digits, which no number has (section 6). */
  predicate LeadingZero(t: Text) {
    |t| > 1 && t[0] == 0x30 && IsDigit(t[1])
  }

  lemma {:induction false} DigitsStart(n: nat)
    ensures n > 0 ==> Digits(n)[0] != 0x30
  {
    if n >= 10 { DigitsStart(n / 10); }
  }

  /** The writer never prints one. */
  lemma NoLeadingZero(n: nat, rest: Text)
    requires rest != [] && !IsDigit(rest[0])
    ensures !LeadingZero(Digits(n) + rest)
  {
    DigitsStart(n);
    assert (Digits(n) + rest)[0] == Digits(n)[0];
    if n == 0 { assert (Digits(0) + rest)[1] == rest[0]; }
  }

  /** Digits at the front, added to what was read before. */
  function ReadDigits(t: Text, sofar: nat): (r: (nat, Text))
    ensures |r.1| <= |t|
  {
    if t == [] || !IsDigit(t[0]) then (sofar, t) else ReadDigits(t[1..], sofar * 10 + (t[0] - 0x30))
  }

  lemma {:induction false} DigitsReadBack(n: nat, rest: Text)
    ensures ReadDigits(Digits(n) + rest, 0) == ReadDigits(rest, n)
    decreases n
  {
    if n < 10 {
      assert ([0x30 + n] + rest)[1..] == rest;
    } else {
      DigitsReadBack(n / 10, [0x30 + n % 10] + rest);
      assert Digits(n) + rest == Digits(n / 10) + ([0x30 + n % 10] + rest);
      assert ([0x30 + n % 10] + rest)[1..] == rest;
    }
  }

  // --------------------------------------------------- reading

  function ReadValue(t: Text): (r: Read<Json>)
    ensures r.Done? ==> |r.rest| < |t|
    decreases |t|, 0
  {
    if t == [] then Bad
    else if t[0] == QUOTE then
      match ReadString(t[1..]) case Done(text, rest) => Done(JText(text), rest) case Bad => Bad
    else if t[0] == OPEN_BRACE then
      if |t| > 1 && t[1] == CLOSE_BRACE then Done(JObject(map[]), t[2..]) else ReadMembers(t[1..], map[])
    else if t[0] == OPEN_BRACKET then
      if |t| > 1 && t[1] == CLOSE_BRACKET then Done(JArray([]), t[2..]) else ReadItems(t[1..], [])
    else if TRUE_TEXT <= t then Done(JFlag(true), t[4..])
    else if FALSE_TEXT <= t then Done(JFlag(false), t[5..])
    else if IsDigit(t[0]) && !LeadingZero(t) then
      var (n, rest) := ReadDigits(t[1..], t[0] - 0x30);
      Done(JNumber(n), rest)
    else if t[0] == MINUS && |t| > 1 && IsDigit(t[1]) && !LeadingZero(t[1..]) then
      var (n, rest) := ReadDigits(t[1..], 0);
      Done(JNumber(0 - n as int), rest)
    else Bad
  }

  /** Members up to the closing brace; of a repeated name the last one counts. */
  function ReadMembers(t: Text, sofar: map<Text, Json>): (r: Read<Json>)
    ensures r.Done? ==> |r.rest| < |t|
    decreases |t|, 1
  {
    if t == [] || t[0] != QUOTE then Bad
    else match ReadString(t[1..])
      case Bad => Bad
      case Done(name, u) =>
        if u == [] || u[0] != COLON then Bad
        else match ReadValue(u[1..])
          case Bad => Bad
          case Done(value, w) =>
            if w == [] then Bad
            else if w[0] == CLOSE_BRACE then Done(JObject(sofar[name := value]), w[1..])
            else if w[0] == COMMA then ReadMembers(w[1..], sofar[name := value])
            else Bad
  }

  function ReadItems(t: Text, sofar: seq<Json>): (r: Read<Json>)
    ensures r.Done? ==> |r.rest| < |t|
    decreases |t|, 1
  {
    match ReadValue(t)
    case Bad => Bad
    case Done(value, w) =>
      if w == [] then Bad
      else if w[0] == CLOSE_BRACKET then Done(JArray(sofar + [value]), w[1..])
      else if w[0] == COMMA then ReadItems(w[1..], sofar + [value])
      else Bad
  }

  // How each kind of value is read, one step at a time.

  lemma TextValue(t: Text, text: Text, rest: Text)
    requires t != [] && t[0] == QUOTE && ReadString(t[1..]) == Done(text, rest)
    ensures ReadValue(t) == Done(JText(text), rest)
  {}

  lemma FlagValue(t: Text, flag: bool, rest: Text)
    requires t == (if flag then TRUE_TEXT else FALSE_TEXT) + rest
    ensures ReadValue(t) == Done(JFlag(flag), rest)
  {
    assert t[0] == if flag then 0x74 else 0x66;
    assert t[|if flag then TRUE_TEXT else FALSE_TEXT|..] == rest;
  }

  lemma DigitValue(t: Text, n: nat, rest: Text)
    requires t != [] && IsDigit(t[0]) && !LeadingZero(t) && ReadDigits(t, 0) == (n, rest)
    ensures ReadValue(t) == Done(JNumber(n), rest)
  {}

  lemma MinusValue(t: Text, n: nat, rest: Text)
    requires |t| > 1 && t[0] == MINUS && IsDigit(t[1]) && !LeadingZero(t[1..]) && ReadDigits(t[1..], 0) == (n, rest)
    ensures ReadValue(t) == Done(JNumber(0 - n as int), rest)
  {}

  lemma ObjectValue(t: Text, value: Json, rest: Text)
    requires |t| > 1 && t[0] == OPEN_BRACE && t[1] != CLOSE_BRACE && ReadMembers(t[1..], map[]) == Done(value, rest)
    ensures ReadValue(t) == Done(value, rest)
  {}

  lemma MemberStep(t: Text, sofar: map<Text, Json>, name: Text, u: Text, value: Json, w: Text)
    requires t != [] && t[0] == QUOTE && ReadString(t[1..]) == Done(name, u)
    requires u != [] && u[0] == COLON && ReadValue(u[1..]) == Done(value, w)
    requires w != [] && (w[0] == CLOSE_BRACE || w[0] == COMMA)
    ensures ReadMembers(t, sofar) ==
      if w[0] == CLOSE_BRACE then Done(JObject(sofar[name := value]), w[1..]) else ReadMembers(w[1..], sofar[name := value])
  {}

  lemma ItemStep(t: Text, sofar: seq<Json>, value: Json, w: Text)
    requires ReadValue(t) == Done(value, w) && w != [] && (w[0] == CLOSE_BRACKET || w[0] == COMMA)
    ensures ReadItems(t, sofar) ==
      if w[0] == CLOSE_BRACKET then Done(JArray(sofar + [value]), w[1..]) else ReadItems(w[1..], sofar + [value])
  {}

  lemma ArrayValue(t: Text, value: Json, rest: Text)
    requires |t| > 1 && t[0] == OPEN_BRACKET && t[1] != CLOSE_BRACKET && ReadItems(t[1..], []) == Done(value, rest)
    ensures ReadValue(t) == Done(value, rest)
  {}

  /** A whole document, which must be UTF-8 (section 8.1 of RFC 8259). */
  predicate Denotes(t: Text, value: Json) {
    ValidUtf8(t) && ReadValue(t) == Done(value, [])
  }

  function ValidNames(names: set<Text>): set<Text> {
    set name | name in names :: ToValid(name)
  }

  /** What the encoder's output for a value is read as: texts and names made well
      formed; of names that become equal any may be the last. */
  ghost function Marshalled(v: Json): Json {
    match v
    case JText(text) => JText(ToValid(text))
    case JObject(members) =>
      JObject(map k | k in ValidNames(members.Keys) ::
        var key :| key in members && ToValid(key) == k;
        Marshalled(members[key]))
    case JArray(items) => JArray(seq(|items|, i requires 0 <= i < |items| => Marshalled(items[i])))
    case _ => v
  }

  predicate WellFormed(v: Json) {
    match v
    case JText(text) => ValidUtf8(text)
    case JObject(members) => forall k :: k in members ==> ValidUtf8(k) && WellFormed(members[k])
    case JArray(items) => forall i :: 0 <= i < |items| ==> WellFormed(items[i])
    case _ => true
  }

  lemma {:induction false} MarshalledKeeps(v: Json)
    requires WellFormed(v)
    ensures Marshalled(v) == v
  {
    match v
    case JText(text) => ToValidIsValid(text);
    case JObject(members) =>
      forall k | k in members ensures ToValid(k) == k && Marshalled(members[k]) == members[k] {
        ToValidIsValid(k);
        MarshalledKeeps(members[k]);
      }
    case JArray(items) =>
      forall i | 0 <= i < |items| ensures Marshalled(items[i]) == items[i] { MarshalledKeeps(items[i]); }
    case _ =>
  }

  // --------------------------------------------------- scalars

  /** A field's value. A leaf (a time, a uuid) has a JSON text of its own that
      needs no escape, and a display text. */
  datatype Scalar = Plain(text: Text) | Flag(flag: bool) | Number(n: int) | Leaf(text: Text, display: Text, zero: bool)

  predicate ValidScalar(v: Scalar) {
    v.Leaf? ==> forall i :: 0 <= i < |v.text| ==> Safe(v.text[i])
  }

  function AsJson(v: Scalar): Json {
    match v
    case Plain(text) => JText(text)
    case Flag(flag) => JFlag(flag)
    case Number(n) => JNumber(n)
    case Leaf(text, _, _) => JText(text)
  }

  function Quoted(text: Text): Text {
    [QUOTE] + Escape(text) + [QUOTE]
  }

  function ScalarBytes(v: Scalar): Text {
    match v
    case Plain(text) => Quoted(text)
    case Flag(flag) => if flag then TRUE_TEXT else FALSE_TEXT
    case Number(n) => NumberText(n)
    case Leaf(text, _, _) => [QUOTE] + text + [QUOTE]
  }

  lemma QuotedReadsBack(text: Text, rest: Text)
    ensures (Quoted(text) + rest)[0] == QUOTE && ReadString((Quoted(text) + rest)[1..]) == Done(text, rest)
  {
    EscapeReadsBack(text, rest);
    assert (Quoted(text) + rest)[1..] == Escape(text) + [QUOTE] + rest;
  }

  lemma DigitsStopped(n: nat, rest: Text)
    requires rest != [] && !IsDigit(rest[0])
    ensures ReadDigits(Digits(n) + rest, 0) == (n, rest)
  {
    DigitsReadBack(n, rest);
  }

  lemma NumberReadsBack(n: int, rest: Text, t: Text)
    requires rest != [] && !IsDigit(rest[0]) && t == NumberText(n) + rest
    ensures ReadValue(t) == Done(JNumber(n), rest)
  {
    NoLeadingZero(if n < 0 then -n else n, rest);
    if n < 0 {
      DigitsStopped(-n, rest);
      var d := Digits(-n);
      assert t == [MINUS] + d + rest;
      assert t[1..] == d + rest && t[1] == d[0];
      MinusValue(t, -n, rest);
    } else {
      DigitsStopped(n, rest);
      assert t[0] == Digits(n)[0];
      DigitValue(t, n, rest);
    }
  }

  lemma TextReadsBack(text: Text, rest: Text, t: Text)
    requires t == Quoted(text) + rest
    ensures ReadValue(t) == Done(JText(text), rest)
  {
    QuotedReadsBack(text, rest);
    TextValue(t, text, rest);
  }

  lemma ScalarReadsBack(v: Scalar, rest: Text, t: Text)
    requires ValidScalar(v) && rest != [] && !IsDigit(rest[0]) && t == ScalarBytes(v) + rest
    ensures ReadValue(t) == Done(AsJson(v), rest)
  {
    match v
    case Plain(text) => TextReadsBack(text, rest, t);
    case Flag(flag) => FlagValue(t, flag, rest);
    case Number(n) => NumberReadsBack(n, rest, t);
    case Leaf(text, _, _) =>
      SafeIsUnchanged(text);
      TextReadsBack(text, rest, t);
  }

  // --------------------------------------------------- objects of scalars

  type Member = (Text, Scalar)

  predicate ValidMembers(ms: seq<Member>) {
    forall i :: 0 <= i < |ms| ==> ValidScalar(ms[i].1)
  }

  function MemberBytes(m: Member): Text {
    Quoted(m.0) + [COLON] + ScalarBytes(m.1)
  }

  /** Members with commas between them, and before them when some came first. */
  function Listed(first: bool, ms: seq<Member>): Text {
    if ms == [] then []
    else
      var run := MemberBytes(ms[0]) + Listed(false, ms[1..]);
      if first then run else [COMMA] + run
  }

  function AddMembers(sofar: map<Text, Json>, ms: seq<Member>): map<Text, Json>
    decreases |ms|
  {
    if ms == [] then sofar else AddMembers(sofar[ms[0].0 := AsJson(ms[0].1)], ms[1..])
  }

  function ObjectOf(ms: seq<Member>): Json {
    JObject(AddMembers(map[], ms))
  }

  function ObjectBytes(ms: seq<Member>): Text {
    [OPEN_BRACE] + Listed(true, ms) + [CLOSE_BRACE]
  }

  lemma MemberReadsBack(m: Member, sofar: map<Text, Json>, w: Text, t: Text)
    requires ValidScalar(m.1) && w != [] && (w[0] == CLOSE_BRACE || w[0] == COMMA) && t == MemberBytes(m) + w
    ensures ReadMembers(t, sofar) ==
      if w[0] == CLOSE_BRACE then Done(JObject(sofar[m.0 := AsJson(m.1)]), w[1..]) else ReadMembers(w[1..], sofar[m.0 := AsJson(m.1)])
  {
    var v := ScalarBytes(m.1) + w;
    var u := [COLON] + v;
    MemberSplits(m, w, t);
    QuotedReadsBack(m.0, u);
    ScalarReadsBack(m.1, w, v);
    assert u[1..] == v;
    MemberStep(t, sofar, m.0, u, AsJson(m.1), w);
  }

  lemma MemberSplits(m: Member, w: Text, t: Text)
    requires t == MemberBytes(m) + w
    ensures t == Quoted(m.0) + ([COLON] + (ScalarBytes(m.1) + w))
  {}

  lemma {:induction false} MembersReadBack(ms: seq<Member>, sofar: map<Text, Json>, rest: Text, t: Text)
    requires ms != [] && ValidMembers(ms) && t == Listed(true, ms) + [CLOSE_BRACE] + rest
    ensures ReadMembers(t, sofar) == Done(JObject(AddMembers(sofar, ms)), rest)
    decreases |ms|
  {
    var w := FirstMember(ms, rest);
    MemberReadsBack(ms[0], sofar, w, t);
    if |ms| > 1 {
      MembersReadBack(ms[1..], sofar[ms[0].0 := AsJson(ms[0].1)], rest, w[1..]);
    }
  }

  /** What stands behind the first member. */
  lemma FirstMember(ms: seq<Member>, rest: Text) returns (w: Text)
    requires ms != []
    ensures Listed(true, ms) + [CLOSE_BRACE] + rest == MemberBytes(ms[0]) + w
    ensures if |ms| == 1 then w == [CLOSE_BRACE] + rest && w[1..] == rest
            else w != [] && w[0] == COMMA && w[1..] == Listed(true, ms[1..]) + [CLOSE_BRACE] + rest
  {
    w := Listed(false, ms[1..]) + [CLOSE_BRACE] + rest;
    Regroup(MemberBytes(ms[0]), Listed(false, ms[1..]), [CLOSE_BRACE], rest);
    if |ms| > 1 {
      LaterMembers(ms[1..]);
      BehindComma(Listed(true, ms[1..]), [CLOSE_BRACE], rest);
    }
  }

  lemma BehindComma(a: Text, b: Text, c: Text)
    ensures ([COMMA] + a + b + c)[0] == COMMA && ([COMMA] + a + b + c)[1..] == a + b + c
  {}


  lemma LaterMembers(ms: seq<Member>)
    requires ms != []
    ensures Listed(false, ms) == [COMMA] + Listed(true, ms)
  {}

  lemma ListedStarts(ms: seq<Member>)
    requires ms != []
    ensures Listed(true, ms) != [] && Listed(true, ms)[0] == QUOTE
  {
    assert Quoted(ms[0].0)[0] == QUOTE;
  }

  /** An object's bytes are read as the object. */
  lemma ObjectReadsBack(ms: seq<Member>, rest: Text, t: Text)
    requires ValidMembers(ms) && t == ObjectBytes(ms) + rest
    ensures ReadValue(t) == Done(ObjectOf(ms), rest)
  {
    if ms == [] {
      EmptyObject(rest, t);
    } else {
      assert t[0] == OPEN_BRACE && t[1..] == Listed(true, ms) + [CLOSE_BRACE] + rest;
      MembersReadBack(ms, map[], rest, t[1..]);
      ListedStarts(ms);
      assert t[1] == QUOTE;
      ObjectValue(t, ObjectOf(ms), rest);
    }
  }

  lemma EmptyObject(rest: Text, t: Text)
    requires t == ObjectBytes([]) + rest
    ensures ReadValue(t) == Done(ObjectOf([]), rest)
  {
    assert t == [OPEN_BRACE, CLOSE_BRACE] + rest;
    assert t[2..] == rest;
  }

  // --------------------------------------------------- members as a map

  predicate DistinctKeys(ms: seq<Member>) {
    forall i, j :: 0 <= i < j < |ms| ==> ms[i].0 != ms[j].0
  }

  function MapOf(ms: seq<Member>): map<Text, Scalar> {
    if ms == [] then map[] else MapOf(ms[..|ms| - 1])[ms[|ms| - 1].0 := ms[|ms| - 1].1]
  }

  lemma {:induction false} MapOfMembers(ms: seq<Member>)
    requires DistinctKeys(ms)
    ensures forall k, v :: k in MapOf(ms) && MapOf(ms)[k] == v <==> (k, v) in ms
  {
    if ms != [] {
      var n := |ms| - 1;
      MapOfMembers(ms[..n]);
      assert ms == ms[..n] + [ms[n]];
      forall k, v ensures k in MapOf(ms) && MapOf(ms)[k] == v <==> (k, v) in ms {
        assert forall i :: 0 <= i < n ==> ms[..n][i].0 != ms[n].0;
        assert (k, v) in ms <==> (k, v) in ms[..n] || (k, v) == ms[n];
      }
    }
  }

  function JsonMap(m: map<Text, Scalar>): map<Text, Json> {
    map k | k in m :: AsJson(m[k])
  }

  lemma {:induction false} AddLast(sofar: map<Text, Json>, ms: seq<Member>, m: Member)
    ensures AddMembers(sofar, ms + [m]) == AddMembers(sofar, ms)[m.0 := AsJson(m.1)]
    decreases |ms|
  {
    if ms == [] {
      assert ms + [m] == [m] && [m][1..] == [];
    } else {
      assert (ms + [m])[0] == ms[0] && (ms + [m])[1..] == ms[1..] + [m];
      AddLast(sofar[ms[0].0 := AsJson(ms[0].1)], ms[1..], m);
    }
  }

  /** What is read from an object's bytes is its map of members. */
  lemma {:induction false} ObjectIsMap(ms: seq<Member>)
    ensures ObjectOf(ms) == JObject(JsonMap(MapOf(ms)))
  {
    if ms == [] {
      assert JsonMap(map[]) == map[];
    } else {
      var n := |ms| - 1;
      ObjectIsMap(ms[..n]);
      assert ms == ms[..n] + [ms[n]];
      AddLast(map[], ms[..n], ms[n]);
      assert JsonMap(MapOf(ms)) == JsonMap(MapOf(ms[..n]))[ms[n].0 := AsJson(ms[n].1)];
    }
  }
}
