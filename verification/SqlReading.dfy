/** How SQL reads a condition: tokens, then NOT over AND over OR, with BETWEEN
    taking its own AND. The reader knows nothing of the query tree; it works on
    inline statements, the texts with their arguments in place. */
module SqlReading {
  import opened Options
  import opened SqlText

  datatype Token = LParen | RParen | Comma | Name(name: string) | Word(word: string) | Bound(value: Value)

  // ---------------------------------------------------------------- tokens

  predicate WordFrag(q: char, f: Frag) {
    f.Chr? && f.c != ' ' && f.c != '(' && f.c != ')' && f.c != ',' && f.c != q
  }

  /** Length of the word the text begins with. */
  function WordRun(q: char, t: Inline): (k: nat)
    ensures k <= |t|
  {
    if t == [] || !WordFrag(q, t[0]) then 0 else 1 + WordRun(q, t[1..])
  }

  function Chars(t: Inline): string {
    if t == [] then "" else (if t[0].Chr? then [t[0].c] else "") + Chars(t[1..])
  }

  /** A quoted name read from behind its opening quote: the name, with doubled
      quotes read as one, and the text behind the closing quote. */
  function ReadName(q: char, t: Inline): (r: Option<(string, Inline)>)
    ensures r.Some? ==> |r.value.1| < |t| && r.value.1 == t[|t| - |r.value.1|..]
  {
    if t == [] || t[0].Val? then None
    else if t[0].c == q then
      if |t| > 1 && t[1] == Chr(q) then
        match ReadName(q, t[2..]) case None => None case Some((name, rest)) => Some(([q] + name, rest))
      else Some(("", t[1..]))
    else match ReadName(q, t[1..]) case None => None case Some((name, rest)) => Some(([t[0].c] + name, rest))
  }

  function Prefixed(token: Token, rest: Option<seq<Token>>): Option<seq<Token>> {
    match rest case None => None case Some(ts) => Some([token] + ts)
  }

  /** The tokens of a text, for names quoted by q; None when a quote is open. */
  function Lex(q: char, t: Inline): Option<seq<Token>>
    decreases |t|
  {
    if t == [] then Some([])
    else if t[0].Val? then Prefixed(Bound(t[0].value), Lex(q, t[1..]))
    else if t[0].c == ' ' then Lex(q, t[1..])
    else if t[0].c == '(' then Prefixed(LParen, Lex(q, t[1..]))
    else if t[0].c == ')' then Prefixed(RParen, Lex(q, t[1..]))
    else if t[0].c == ',' then Prefixed(Comma, Lex(q, t[1..]))
    else if t[0].c == q then
      match ReadName(q, t[1..]) case None => None case Some((name, rest)) => Prefixed(Name(name), Lex(q, rest))
    else
      Prefixed(Word(Chars(t[..WordRun(q, t)])), Lex(q, t[WordRun(q, t)..]))
  }

  /** No token spans the seam between a and b. */
  predicate Seam(q: char, a: Inline, b: Inline) {
    a == [] || b == [] ||
    (!(WordFrag(q, a[|a| - 1]) && WordFrag(q, b[0])) && !(a[|a| - 1] == Chr(q) && b[0] == Chr(q)))
  }

  lemma {:induction false} WordRunConcat(q: char, a: Inline, b: Inline)
    requires a != [] && Seam(q, a, b)
    ensures WordRun(q, a + b) == WordRun(q, a)
  {
    assert (a + b)[0] == a[0];
    assert (a + b)[1..] == a[1..] + b;
    if WordFrag(q, a[0]) {
      if |a| == 1 {
        assert a[1..] + b == b;
      } else {
        WordRunConcat(q, a[1..], b);
      }
    }
  }

  lemma {:induction false} ReadNameConcat(q: char, a: Inline, b: Inline)
    requires ReadName(q, a).Some? && (ReadName(q, a).value.1 == [] ==> Seam(q, a, b))
    ensures ReadName(q, a + b) == Some((ReadName(q, a).value.0, ReadName(q, a).value.1 + b))
    decreases |a|
  {
    assert (a + b)[0] == a[0] && (a + b)[1..] == a[1..] + b;
    if a[0].c == q {
      if |a| > 1 && a[1] == Chr(q) {
        assert (a + b)[1] == a[1] && (a + b)[2..] == a[2..] + b;
        ReadNameConcat(q, a[2..], b);
      } else if |a| == 1 && b != [] {
        assert (a + b)[1] == b[0];
      }
    } else {
      ReadNameConcat(q, a[1..], b);
    }
  }

  lemma SeamOfSuffix(q: char, a: Inline, k: nat, b: Inline)
    requires k < |a| && Seam(q, a, b)
    ensures Seam(q, a[k..], b)
  {}

  predicate QuoteMark(q: char) {
    q != ' ' && q != '(' && q != ')' && q != ','
  }

  lemma PrefixConcat(token: Token, x: seq<Token>, y: seq<Token>)
    ensures [token] + (x + y) == ([token] + x) + y
  {}

  /** Tokens of a concatenation, when no token spans the seam. */
  lemma {:induction false} LexConcat(q: char, a: Inline, b: Inline)
    requires QuoteMark(q) && Lex(q, a).Some? && Lex(q, b).Some? && Seam(q, a, b)
    ensures Lex(q, a + b) == Some(Lex(q, a).value + Lex(q, b).value)
    decreases |a|, 1
  {
    if a == [] {
      assert a + b == b && [] + Lex(q, b).value == Lex(q, b).value;
    } else if WordFrag(q, a[0]) {
      LexWordConcat(q, a, b);
    } else if a[0] == Chr(q) {
      LexNameConcat(q, a, b);
    } else {
      assert (a + b)[0] == a[0] && (a + b)[1..] == a[1..] + b;
      LexConcat(q, a[1..], b);
      var rest := Lex(q, a[1..]).value;
      if a[0] != Chr(' ') { PrefixConcat(Lex(q, a).value[0], rest, Lex(q, b).value); }
    }
  }

  lemma {:induction false} LexNameConcat(q: char, a: Inline, b: Inline)
    requires QuoteMark(q) && Lex(q, a).Some? && Lex(q, b).Some? && Seam(q, a, b)
    requires a != [] && a[0] == Chr(q)
    ensures Lex(q, a + b) == Some(Lex(q, a).value + Lex(q, b).value)
    decreases |a|, 0
  {
    assert (a + b)[0] == a[0] && (a + b)[1..] == a[1..] + b;
    var (name, rest) := ReadName(q, a[1..]).value;
    if a[1..] != [] { SeamOfSuffix(q, a, 1, b); }
    ReadNameConcat(q, a[1..], b);
    if rest != [] { SeamOfSuffix(q, a, |a| - |rest|, b); }
    assert rest == a[|a| - |rest|..];
    LexConcat(q, rest, b);
    PrefixConcat(Name(name), Lex(q, rest).value, Lex(q, b).value);
  }

  lemma {:induction false} LexWordConcat(q: char, a: Inline, b: Inline)
    requires QuoteMark(q) && Lex(q, a).Some? && Lex(q, b).Some? && Seam(q, a, b)
    requires a != [] && WordFrag(q, a[0])
    ensures Lex(q, a + b) == Some(Lex(q, a).value + Lex(q, b).value)
    decreases |a|, 0
  {
    var k := WordRun(q, a);
    WordRunConcat(q, a, b);
    assert (a + b)[0] == a[0];
    assert (a + b)[..k] == a[..k] && (a + b)[k..] == a[k..] + b;
    if k < |a| { SeamOfSuffix(q, a, k, b); }
    LexConcat(q, a[k..], b);
    PrefixConcat(Word(Chars(a[..k])), Lex(q, a[k..]).value, Lex(q, b).value);
  }

  // ---------------------------------------------------------------- grammar

  datatype Formula = Leaf(tokens: seq<Token>) | NotF(f: Formula) | AndF(left: Formula, right: Formula) | OrF(left: Formula, right: Formula)

  /** Number of tokens of the predicate the list begins with: up to an AND, OR
      or closing parenthesis that is not its own. */
  function LeafLength(ts: seq<Token>, depth: nat, betweens: nat): (k: nat)
    ensures k <= |ts|
  {
    if ts == [] then 0
    else match ts[0]
      case LParen => 1 + LeafLength(ts[1..], depth + 1, betweens)
      case RParen => if depth == 0 then 0 else 1 + LeafLength(ts[1..], depth - 1, betweens)
      case Word(w) =>
        if depth > 0 then 1 + LeafLength(ts[1..], depth, betweens)
        else if w == "OR" then 0
        else if w == "AND" then if betweens == 0 then 0 else 1 + LeafLength(ts[1..], depth, betweens - 1)
        else if w == "BETWEEN" then 1 + LeafLength(ts[1..], depth, betweens + 1)
        else 1 + LeafLength(ts[1..], depth, betweens)
      case _ => 1 + LeafLength(ts[1..], depth, betweens)
  }

  /** Depth and open BETWEENs after scanning tokens without meeting the end of
      the predicate; None when its end is met. */
  function Passes(ts: seq<Token>, depth: nat, betweens: nat): Option<(nat, nat)> {
    if ts == [] then Some((depth, betweens))
    else match ts[0]
      case LParen => Passes(ts[1..], depth + 1, betweens)
      case RParen => if depth == 0 then None else Passes(ts[1..], depth - 1, betweens)
      case Word(w) =>
        if depth > 0 then Passes(ts[1..], depth, betweens)
        else if w == "OR" then None
        else if w == "AND" then if betweens == 0 then None else Passes(ts[1..], depth, betweens - 1)
        else if w == "BETWEEN" then Passes(ts[1..], depth, betweens + 1)
        else Passes(ts[1..], depth, betweens)
      case _ => Passes(ts[1..], depth, betweens)
  }

  datatype Parsed = Parsed(f: Formula, rest: seq<Token>) | Failed

  function ParseOr(ts: seq<Token>): (r: Parsed)
    ensures r.Parsed? ==> |r.rest| < |ts|
    decreases |ts|, 3
  {
    var left := ParseAnd(ts);
    if left.Parsed? && left.rest != [] && left.rest[0] == Word("OR") then
      var right := ParseOr(left.rest[1..]);
      if right.Parsed? then Parsed(OrF(left.f, right.f), right.rest) else Failed
    else left
  }

  function ParseAnd(ts: seq<Token>): (r: Parsed)
    ensures r.Parsed? ==> |r.rest| < |ts|
    decreases |ts|, 2
  {
    var left := ParseNot(ts);
    if left.Parsed? && left.rest != [] && left.rest[0] == Word("AND") then
      var right := ParseAnd(left.rest[1..]);
      if right.Parsed? then Parsed(AndF(left.f, right.f), right.rest) else Failed
    else left
  }

  function ParseNot(ts: seq<Token>): (r: Parsed)
    ensures r.Parsed? ==> |r.rest| < |ts|
    decreases |ts|, 1
  {
    if ts != [] && ts[0] == Word("NOT") then
      var inner := ParseNot(ts[1..]);
      if inner.Parsed? then Parsed(NotF(inner.f), inner.rest) else Failed
    else ParsePrimary(ts)
  }

  function ParsePrimary(ts: seq<Token>): (r: Parsed)
    ensures r.Parsed? ==> |r.rest| < |ts|
    decreases |ts|, 0
  {
    if ts != [] && ts[0] == LParen then
      var inner := ParseOr(ts[1..]);
      if inner.Parsed? && inner.rest != [] && inner.rest[0] == RParen then Parsed(inner.f, inner.rest[1..]) else Failed
    else
      var k := LeafLength(ts, 0, 0);
      if k == 0 || Passes(ts[..k], 0, 0) != Some((0, 0)) then Failed else Parsed(Leaf(ts[..k]), ts[k..])
  }

  // ---------------------------------------------------------------- what follows

  /** Tokens that may follow a complete condition. */
  predicate Stops(rest: seq<Token>) {
    rest == [] || rest[0] == RParen || rest[0] == Word("AND") || rest[0] == Word("OR")
  }

  lemma {:induction false} LengthBefore(ts: seq<Token>, more: seq<Token>, depth: nat, betweens: nat)
    requires LeafLength(ts, depth, betweens) < |ts|
    ensures LeafLength(ts + more, depth, betweens) == LeafLength(ts, depth, betweens)
    decreases ts
  {
    assert (ts + more)[0] == ts[0] && (ts + more)[1..] == ts[1..] + more;
    match ts[0]
    case LParen => LengthBefore(ts[1..], more, depth + 1, betweens);
    case RParen => if depth > 0 { LengthBefore(ts[1..], more, depth - 1, betweens); }
    case Word(w) =>
      if depth > 0 { LengthBefore(ts[1..], more, depth, betweens); }
      else if w == "OR" || (w == "AND" && betweens == 0) {}
      else { LengthBefore(ts[1..], more, depth, if w == "AND" then betweens - 1 else if w == "BETWEEN" then betweens + 1 else betweens); }
    case _ => LengthBefore(ts[1..], more, depth, betweens);
  }

  lemma {:induction false} PassesIsLength(ts: seq<Token>, rest: seq<Token>, depth: nat, betweens: nat)
    requires Passes(ts, depth, betweens) == Some((0, 0)) && Stops(rest)
    ensures LeafLength(ts + rest, depth, betweens) == |ts|
    decreases ts
  {
    if ts == [] {
      assert ts + rest == rest;
    } else {
      assert (ts + rest)[0] == ts[0] && (ts + rest)[1..] == ts[1..] + rest;
      match ts[0]
      case LParen => PassesIsLength(ts[1..], rest, depth + 1, betweens);
      case RParen => PassesIsLength(ts[1..], rest, depth - 1, betweens);
      case Word(w) =>
        if depth == 0 && w == "AND" { PassesIsLength(ts[1..], rest, depth, betweens - 1); }
        else if depth == 0 && w == "BETWEEN" { PassesIsLength(ts[1..], rest, depth, betweens + 1); }
        else { PassesIsLength(ts[1..], rest, depth, betweens); }
      case _ => PassesIsLength(ts[1..], rest, depth, betweens);
    }
  }

  /** The parsers do not look beyond what they take: more tokens behind change
      nothing, if those that end the text stop the parser. */
  ghost predicate Extends(r: Parsed, after: Parsed, more: seq<Token>) {
    r.Parsed? ==> after == Parsed(r.f, r.rest + more)
  }

  lemma LeafExtends(ts: seq<Token>, more: seq<Token>)
    requires ts != [] && ts[0] != LParen
    requires ParsePrimary(ts).Parsed? && (ParsePrimary(ts).rest == [] ==> Stops(more))
    ensures Extends(ParsePrimary(ts), ParsePrimary(ts + more), more)
  {
    var k := LeafLength(ts, 0, 0);
    assert (ts + more)[0] == ts[0];
    if k < |ts| {
      LengthBefore(ts, more, 0, 0);
    } else {
      assert ts[..k] == ts;
      PassesIsLength(ts, more, 0, 0);
    }
    assert (ts + more)[..k] == ts[..k] && (ts + more)[k..] == ts[k..] + more;
  }

  lemma {:induction false} PrimaryExtends(ts: seq<Token>, more: seq<Token>)
    requires ParsePrimary(ts).Parsed? && (ParsePrimary(ts).rest == [] ==> Stops(more))
    ensures Extends(ParsePrimary(ts), ParsePrimary(ts + more), more)
    decreases |ts|, 0
  {
    if ts != [] && ts[0] == LParen {
      assert (ts + more)[0] == LParen && (ts + more)[1..] == ts[1..] + more;
      OrExtends(ts[1..], more);
      var inner := ParseOr(ts[1..]);
      assert (inner.rest + more)[0] == inner.rest[0] && (inner.rest + more)[1..] == inner.rest[1..] + more;
    } else {
      LeafExtends(ts, more);
    }
  }

  lemma {:induction false} NotExtends(ts: seq<Token>, more: seq<Token>)
    requires ParseNot(ts).Parsed? && (ParseNot(ts).rest == [] ==> Stops(more))
    ensures Extends(ParseNot(ts), ParseNot(ts + more), more)
    decreases |ts|, 1
  {
    if ts != [] {
      assert (ts + more)[0] == ts[0] && (ts + more)[1..] == ts[1..] + more;
    }
    if ts != [] && ts[0] == Word("NOT") {
      NotExtends(ts[1..], more);
    } else {
      PrimaryExtends(ts, more);
    }
  }

  lemma {:induction false} AndExtends(ts: seq<Token>, more: seq<Token>)
    requires ParseAnd(ts).Parsed? && (ParseAnd(ts).rest == [] ==> Stops(more) && (more != [] ==> more[0] != Word("AND")))
    ensures Extends(ParseAnd(ts), ParseAnd(ts + more), more)
    decreases |ts|, 2
  {
    var left := ParseNot(ts);
    NotExtends(ts, more);
    if left.rest != [] {
      assert (left.rest + more)[0] == left.rest[0] && (left.rest + more)[1..] == left.rest[1..] + more;
      if left.rest[0] == Word("AND") { AndExtends(left.rest[1..], more); }
    }
  }

  lemma {:induction false} OrExtends(ts: seq<Token>, more: seq<Token>)
    requires ParseOr(ts).Parsed? && (ParseOr(ts).rest == [] ==> more == [] || more[0] == RParen)
    ensures Extends(ParseOr(ts), ParseOr(ts + more), more)
    decreases |ts|, 3
  {
    var left := ParseAnd(ts);
    AndExtends(ts, more);
    if left.rest != [] {
      assert (left.rest + more)[0] == left.rest[0] && (left.rest + more)[1..] == left.rest[1..] + more;
      if left.rest[0] == Word("OR") { OrExtends(left.rest[1..], more); }
    }
  }

  /** The formula a whole condition text denotes. */
  function ReadCondition(q: char, t: Inline): Option<Formula> {
    match Lex(q, t)
    case None => None
    case Some(ts) => if ParseOr(ts).Parsed? && ParseOr(ts).rest == [] then Some(ParseOr(ts).f) else None
  }

  // ---------------------------------------------------------------- truth

  /** SQL's three truth values. */
  datatype Truth = True | False | Unknown

  function Not3(a: Truth): Truth {
    match a case True => False case False => True case Unknown => Unknown
  }

  function And3(a: Truth, b: Truth): Truth {
    if a.False? || b.False? then False else if a.True? && b.True? then True else Unknown
  }

  function Or3(a: Truth, b: Truth): Truth {
    if a.True? || b.True? then True else if a.False? && b.False? then False else Unknown
  }

  /** A valuation of single predicates on some row; constants mean themselves. */
  ghost predicate Valuation(env: seq<Token> -> Truth) {
    env([Word("1=1")]) == True && env([Word("1=0")]) == False
  }

  function Eval(f: Formula, env: seq<Token> -> Truth): Truth {
    match f
    case Leaf(tokens) => env(tokens)
    case NotF(g) => Not3(Eval(g, env))
    case AndF(l, r) => And3(Eval(l, env), Eval(r, env))
    case OrF(l, r) => Or3(Eval(l, env), Eval(r, env))
  }
}
