/** Rendering preserves meaning: reading a condition's text with SQL's
    precedence gives back the tree's own logic (query/condition.go:249-288,
    query/select.go:336-349). */
module ConditionMeaning {
  import opened Options
  import opened SqlText
  import opened QueryTree
  import opened QueryMeaning
  import opened SqlReading
  import opened StatementTexts
  import QueryNumbering

  /** A condition tree without raw fragments or invalid nodes. Columns are names,
      or expressions that are one operand; nested statements are well kept. */
  predicate IsCondition(d: Dialect, n: Node)
    decreases n
  {
    match n
    case Comparison(column, operator, _) => IsOperand(d, column) && operator in OPERATORS
    case ILike(column, _) => IsOperand(d, column)
    case NullTest(column, _) => IsOperand(d, column)
    case InList(column, _, _) => IsOperand(d, column)
    case Between(column, _, _) => IsOperand(d, column)
    case ColumnComparison(col1, operator, col2) => IsOperand(d, col1) && IsOperand(d, col2) && operator in OPERATORS
    case Logical(operator, conditions) => operator in {"AND", "OR"} && AreConditions(d, conditions)
    case Not(condition) => IsCondition(d, condition)
    case InSubquery(_, subquery, _) => IsStatement(d, subquery)
    case Exists(subquery, _) => IsStatement(d, subquery)
    case _ => false
  }

  predicate AreConditions(d: Dialect, ns: seq<Node>)
    decreases ns
  {
    ns == [] || (IsCondition(d, ns[0]) && AreConditions(d, ns[1..]))
  }

  /** A name with a parenthesis is an expression, printed as it is; COUNT(*) is
      one operand, a OR (b) is not. */
  predicate IsOperand(d: Dialect, name: string) {
    '(' in name ==> Lex(QuoteChar(d), Lit(name)).Some? && OneLeaf(Lex(QuoteChar(d), Lit(name)).value)
  }

  /** A text that can stand between parentheses. */
  predicate Closed(d: Dialect, t: Inline) {
    Lex(QuoteChar(d), t).Some? && Passes(Lex(QuoteChar(d), t).value, 1, 0) == Some((1, 0))
  }

  // --------------------------------------------------- the tree's own logic

  /** The tokens of a printed condition. */
  function TokensOf(d: Dialect, n: Node): seq<Token> {
    match Lex(QuoteChar(d), InlineOf(d, n)) case None => [] case Some(ts) => ts
  }

  /** The predicate a leaf stands for, as tokens: column names without quotes,
      operators, values. It says nothing of how the leaf is printed. */
  function LeafTokens(d: Dialect, n: Node): seq<Token> {
    match n
    case Comparison(column, operator, value) => ColumnTokens(d, column) + OperatorTokens(operator) + [Bound(value)]
    case ILike(column, pattern) =>
      if d.Postgres? then ColumnTokens(d, column) + [Word("ILIKE")] + [Bound(StringValue(pattern))]
      else LoweredTokens(ColumnTokens(d, column)) + [Word("LIKE")] + [Word("LOWER")] + [LParen] + [Bound(StringValue(pattern))] + [RParen]
    case NullTest(column, isNull) =>
      if isNull then ColumnTokens(d, column) + [Word("IS")] + [Word("NULL")]
      else ColumnTokens(d, column) + [Word("IS")] + [Word("NOT")] + [Word("NULL")]
    case InList(column, values, notIn) =>
      if values == [] then [Word(if notIn then "1=1" else "1=0")]
      else ColumnTokens(d, column) + InTokens(notIn) + [LParen] + ListTokens(values) + [RParen]
    case Between(column, start, end) => ColumnTokens(d, column) + [Word("BETWEEN")] + [Bound(start)] + [Word("AND")] + [Bound(end)]
    case ColumnComparison(col1, operator, col2) => ColumnTokens(d, col1) + OperatorTokens(operator) + ColumnTokens(d, col2)
    case InSubquery(column, subquery, negate) =>
      InSubqueryTokens(column, negate, StatementTokens(d, subquery))
    case Exists(subquery, _) => ExistsTokens(StatementTokens(d, subquery))
    case _ => []
  }

  function LoweredTokens(ts: seq<Token>): seq<Token> {
    [Word("LOWER")] + [LParen] + ts + [RParen]
  }

  function InSubqueryTokens(column: string, negate: bool, inside: seq<Token>): seq<Token> {
    [Name(column)] + InTokens(negate) + [LParen] + inside + [RParen]
  }

  function ExistsTokens(inside: seq<Token>): seq<Token> {
    [Word("EXISTS")] + [LParen] + inside + [RParen]
  }

  function StatementTokens(d: Dialect, s: Select): seq<Token> {
    TextTokens(d, InlineSelect(d, s))
  }

  /** The tokens of a text. */
  function TextTokens(d: Dialect, t: Inline): seq<Token> {
    match Lex(QuoteChar(d), t) case None => [] case Some(ts) => ts
  }

  /** What a condition tree means, by its structure alone. */
  function Meaning(d: Dialect, n: Node, env: seq<Token> -> Truth): Truth
    decreases n
  {
    match n
    case Logical(operator, conditions) =>
      if conditions == [] then True
      else if operator == "AND" then All(d, conditions, env) else Any(d, conditions, env)
    case Not(condition) => Not3(Meaning(d, condition, env))
    case InList(_, values, notIn) =>
      if values == [] then (if notIn then True else False) else env(LeafTokens(d, n))
    case Exists(_, negate) =>
      if negate then Not3(env(LeafTokens(d, n))) else env(LeafTokens(d, n))
    case _ => env(LeafTokens(d, n))
  }

  function All(d: Dialect, ns: seq<Node>, env: seq<Token> -> Truth): Truth
    decreases ns
  {
    if ns == [] then True else And3(Meaning(d, ns[0], env), All(d, ns[1..], env))
  }

  function Any(d: Dialect, ns: seq<Node>, env: seq<Token> -> Truth): Truth
    decreases ns
  {
    if ns == [] then False else Or3(Meaning(d, ns[0], env), Any(d, ns[1..], env))
  }

  // --------------------------------------------------- leaves

  /** The tokens of one predicate: not empty, no leading NOT or parenthesis,
      and scanned to the end as one predicate. */
  predicate OneLeaf(ts: seq<Token>) {
    ts != [] && ts[0] != LParen && ts[0] != Word("NOT") && Passes(ts, 0, 0) == Some((0, 0))
  }

  lemma {:induction false} PassesConcat(a: seq<Token>, b: seq<Token>, depth: nat, betweens: nat)
    requires Passes(a, depth, betweens).Some?
    ensures Passes(a + b, depth, betweens) == Passes(b, Passes(a, depth, betweens).value.0, Passes(a, depth, betweens).value.1)
    decreases a
  {
    if a == [] {
      assert a + b == b;
    } else {
      assert (a + b)[0] == a[0] && (a + b)[1..] == a[1..] + b;
      match a[0]
      case LParen => PassesConcat(a[1..], b, depth + 1, betweens);
      case RParen => PassesConcat(a[1..], b, depth - 1, betweens);
      case Word(w) =>
        if depth == 0 && w == "AND" { PassesConcat(a[1..], b, depth, betweens - 1); }
        else if depth == 0 && w == "BETWEEN" { PassesConcat(a[1..], b, depth, betweens + 1); }
        else { PassesConcat(a[1..], b, depth, betweens); }
      case _ => PassesConcat(a[1..], b, depth, betweens);
    }
  }

  lemma LeafIsParsed(ts: seq<Token>, rest: seq<Token>)
    requires OneLeaf(ts) && Stops(rest)
    ensures ParseNot(ts + rest) == Parsed(Leaf(ts), rest)
  {
    PassesIsLength(ts, rest, 0, 0);
    assert (ts + rest)[0] == ts[0];
    assert (ts + rest)[..|ts|] == ts && (ts + rest)[|ts|..] == rest;
  }

  /** Tokens that neither end nor nest nor open anything. */
  predicate Calm(ts: seq<Token>) {
    forall i :: 0 <= i < |ts| ==>
      ts[i].Name? || ts[i].Bound? || ts[i].Comma? || (ts[i].Word? && ts[i].word != "AND" && ts[i].word != "OR" && ts[i].word != "BETWEEN")
  }

  lemma {:induction false} CalmPasses(ts: seq<Token>, depth: nat, betweens: nat)
    requires Calm(ts)
    ensures Passes(ts, depth, betweens) == Some((depth, betweens))
    decreases ts
  {
    if ts != [] { CalmPasses(ts[1..], depth, betweens); }
  }

  // --------------------------------------------------- tokens of the pieces

  lemma {:induction false} WordRunAll(q: char, w: string)
    requires forall i :: 0 <= i < |w| ==> WordFrag(q, Chr(w[i]))
    ensures WordRun(q, Lit(w)) == |w| && Chars(Lit(w)) == w
  {
    if w != "" {
      assert Lit(w)[1..] == Lit(w[1..]);
      WordRunAll(q, w[1..]);
      assert w == [w[0]] + w[1..];
    }
  }

  lemma LexWord(q: char, w: string)
    requires w != "" && forall i :: 0 <= i < |w| ==> WordFrag(q, Chr(w[i]))
    ensures Lex(q, Lit(w)) == Some([Word(w)])
  {
    var t := Lit(w);
    WordRunAll(q, w);
    assert t[0] == Chr(w[0]) && WordFrag(q, Chr(w[0]));
    assert t[..|w|] == t && t[|w|..] == [];
    assert Lex(q, t) == Prefixed(Word(Chars(t[..|w|])), Lex(q, t[|w|..]));
    assert [Word(w)] + [] == [Word(w)];
    assert Lex(q, []) == Some([]);
  }

  lemma {:induction false} ReadDoubled(q: char, name: string)
    ensures ReadName(q, Lit(Doubled(q, name)) + [Chr(q)]) == Some((name, []))
  {
    var t := Lit(Doubled(q, name)) + [Chr(q)];
    if name != "" {
      ReadDoubled(q, name[1..]);
      var rest := Lit(Doubled(q, name[1..])) + [Chr(q)];
      LitConcat(if name[0] == q then [q, q] else [name[0]], Doubled(q, name[1..]));
      assert name == [name[0]] + name[1..];
      if name[0] == q {
        assert t == [Chr(q), Chr(q)] + rest;
        assert t[2..] == rest;
      } else {
        assert t == [Chr(name[0])] + rest;
        assert t[1..] == rest;
      }
    }
  }

  lemma LexQuoted(d: Dialect, name: string)
    ensures Lex(QuoteChar(d), Lit(Quote(d, name))) == Some([Name(name)])
  {
    var q := QuoteChar(d);
    ReadDoubled(q, name);
    var t := Lit(Quote(d, name));
    assert t == [Chr(q)] + (Lit(Doubled(q, name)) + [Chr(q)]);
    assert t[1..] == Lit(Doubled(q, name)) + [Chr(q)];
    assert t[0] == Chr(q) && !WordFrag(q, t[0]);
    assert Lex(q, t) == Prefixed(Name(name), Lex(q, []));
    assert [Name(name)] + [] == [Name(name)];
    assert Lex(q, []) == Some([]);
  }

  ghost predicate Reads(q: char, t: Inline, ts: seq<Token>) {
    Lex(q, t) == Some(ts)
  }

  lemma ReadsConcat(q: char, a: Inline, x: seq<Token>, b: Inline, y: seq<Token>)
    requires QuoteMark(q) && Reads(q, a, x) && Reads(q, b, y) && Seam(q, a, b)
    ensures Reads(q, a + b, x + y)
  {
    LexConcat(q, a, b);
  }

  /** Two texts with a blank between them. */
  lemma ReadsSpaced(q: char, a: Inline, x: seq<Token>, b: Inline, y: seq<Token>)
    requires QuoteMark(q) && Reads(q, a, x) && Reads(q, b, y)
    ensures Reads(q, a + Lit(" ") + b, x + y)
  {
    assert Lit(" ") == [Chr(' ')] && Lit(" ")[1..] == [];
    assert Lex(q, []) == Some([]);
    ReadsConcat(q, a, x, Lit(" "), []);
    assert x + [] == x;
    ReadsConcat(q, a + Lit(" "), x, b, y);
  }

  predicate IsMark(c: char) {
    c == '(' || c == ')' || c == ','
  }

  function MarkToken(c: char): Token
    requires IsMark(c)
  {
    if c == '(' then LParen else if c == ')' then RParen else Comma
  }

  lemma ReadsMark(q: char, c: char)
    requires QuoteMark(q) && IsMark(c)
    ensures Reads(q, Lit([c]), [MarkToken(c)])
  {
    assert Lit([c])[1..] == [];
    assert Lex(q, []) == Some([]);
    assert [MarkToken(c)] + [] == [MarkToken(c)];
  }

  lemma ReadsValue(q: char, v: Value)
    ensures Reads(q, [Val(v)], [Bound(v)])
  {
    assert [Val(v)][1..] == [];
    assert Lex(q, []) == Some([]);
    assert [Bound(v)] + [] == [Bound(v)];
  }

  /** A text, then a mark; a mark, then a text. */
  lemma ReadsThenMark(q: char, a: Inline, x: seq<Token>, c: char)
    requires QuoteMark(q) && Reads(q, a, x) && IsMark(c)
    ensures Reads(q, a + Lit([c]), x + [MarkToken(c)])
  {
    ReadsMark(q, c);
    ReadsConcat(q, a, x, Lit([c]), [MarkToken(c)]);
  }

  lemma ReadsAfterMark(q: char, a: Inline, x: seq<Token>, c: char, b: Inline, y: seq<Token>)
    requires QuoteMark(q) && Reads(q, a + Lit([c]), x) && Reads(q, b, y) && IsMark(c)
    ensures Reads(q, a + Lit([c]) + b, x + y)
  {
    ReadsConcat(q, a + Lit([c]), x, b, y);
  }

  predicate PlainWord(w: string) {
    w != "" && forall i :: 0 <= i < |w| ==> w[i] != ' ' && w[i] != '(' && w[i] != ')' && w[i] != ',' && w[i] != '"' && w[i] != '`'
  }

  lemma ReadsWord(d: Dialect, w: string)
    requires PlainWord(w)
    ensures Reads(QuoteChar(d), Lit(w), [Word(w)])
  {
    LexWord(QuoteChar(d), w);
  }

  // --------------------------------------------------- columns and operators

  function DottedTokens(names: seq<string>): seq<Token>
    requires names != []
  {
    if |names| == 1 then [Name(names[0])] else [Name(names[0]), Word(".")] + DottedTokens(names[1..])
  }

  function ColumnTokens(d: Dialect, name: string): seq<Token> {
    if '(' in name then TextTokens(d, Lit(name))
    else if '.' in name then DottedTokens(SplitAtDots(name))
    else [Name(name)]
  }

  lemma ReadsDot(d: Dialect, name: string, rest: string, ts: seq<Token>)
    requires rest != "" && rest[0] == QuoteChar(d) && Reads(QuoteChar(d), Lit(rest), ts)
    ensures Reads(QuoteChar(d), Lit(Quote(d, name) + "." + rest), [Name(name), Word(".")] + ts)
  {
    var q, head := QuoteChar(d), Quote(d, name);
    LexQuoted(d, name);
    ReadsWord(d, ".");
    ReadsConcat(q, Lit(head), [Name(name)], Lit("."), [Word(".")]);
    assert [Name(name)] + [Word(".")] == [Name(name), Word(".")];
    ReadsConcat(q, Lit(head) + Lit("."), [Name(name), Word(".")], Lit(rest), ts);
    LitConcat(head, ".");
    LitConcat(head + ".", rest);
  }

  lemma {:induction false} ReadsDotted(d: Dialect, names: seq<string>)
    requires names != []
    ensures Reads(QuoteChar(d), Lit(Join(QuoteAll(d, names), ".")), DottedTokens(names))
    ensures Calm(DottedTokens(names)) && DottedTokens(names)[0].Name?
  {
    if |names| == 1 {
      LexQuoted(d, names[0]);
    } else {
      assert QuoteAll(d, names)[1..] == QuoteAll(d, names[1..]);
      ReadsDotted(d, names[1..]);
      JoinStartsQuoted(d, names[1..]);
      ReadsDot(d, names[0], Join(QuoteAll(d, names[1..]), "."), DottedTokens(names[1..]));
    }
  }

  lemma JoinStartsQuoted(d: Dialect, names: seq<string>)
    requires names != []
    ensures Join(QuoteAll(d, names), ".") != "" && Join(QuoteAll(d, names), ".")[0] == QuoteChar(d)
  {
    assert QuoteAll(d, names)[0] == Quote(d, names[0]);
  }

  lemma ReadsColumn(d: Dialect, name: string)
    requires IsOperand(d, name)
    ensures Reads(QuoteChar(d), Lit(QuoteQualified(d, name)), ColumnTokens(d, name))
    ensures OneLeaf(ColumnTokens(d, name))
  {
    if '(' !in name {
      if '.' in name { ReadsDotted(d, SplitAtDots(name)); } else { LexQuoted(d, name); }
      CalmIsLeaf(ColumnTokens(d, name));
    }
  }

  function OperatorTokens(operator: string): seq<Token> {
    if operator == "NOT LIKE" then [Word("NOT"), Word("LIKE")] else [Word(operator)]
  }

  lemma ReadsOperator(d: Dialect, operator: string)
    requires operator in OPERATORS
    ensures Reads(QuoteChar(d), Lit(operator), OperatorTokens(operator)) && Calm(OperatorTokens(operator))
  {
    if operator == "NOT LIKE" {
      ReadsWord(d, "NOT");
      ReadsWord(d, "LIKE");
      ReadsSpaced(QuoteChar(d), Lit("NOT"), [Word("NOT")], Lit("LIKE"), [Word("LIKE")]);
      assert Lit("NOT LIKE") == Lit("NOT") + Lit(" ") + Lit("LIKE");
      assert [Word("NOT")] + [Word("LIKE")] == [Word("NOT"), Word("LIKE")];
    } else {
      assert PlainWord(operator);
      ReadsWord(d, operator);
    }
  }

  // --------------------------------------------------- leaves, one by one

  ghost predicate ReadsAsLeaf(d: Dialect, n: Node) {
    Reads(QuoteChar(d), InlineOf(d, n), LeafTokens(d, n)) && OneLeaf(LeafTokens(d, n))
  }

  lemma CalmIsLeaf(ts: seq<Token>)
    requires Calm(ts) && ts != [] && ts[0].Name?
    ensures OneLeaf(ts)
  {
    CalmPasses(ts, 0, 0);
  }

  lemma LeafThenCalm(ts: seq<Token>, more: seq<Token>)
    requires OneLeaf(ts) && Calm(more)
    ensures OneLeaf(ts + more)
  {
    CalmPasses(more, 0, 0);
    LeafThen(ts, more);
  }

  lemma LeafThen(ts: seq<Token>, more: seq<Token>)
    requires OneLeaf(ts) && Passes(more, 0, 0) == Some((0, 0))
    ensures OneLeaf(ts + more)
  {
    PassesConcat(ts, more, 0, 0);
    assert (ts + more)[0] == ts[0];
  }

  /** Below a parenthesis nothing but parentheses counts. */
  lemma {:induction false} PassesDeeper(ts: seq<Token>, depth: nat, betweens: nat, other: nat)
    requires Passes(ts, depth, betweens).Some?
    ensures Passes(ts, depth + 1, other) == Some((Passes(ts, depth, betweens).value.0 + 1, other))
    decreases ts
  {
    if ts != [] {
      match ts[0]
      case LParen => PassesDeeper(ts[1..], depth + 1, betweens, other);
      case RParen => PassesDeeper(ts[1..], depth - 1, betweens, other);
      case Word(w) =>
        if depth == 0 && w == "AND" { PassesDeeper(ts[1..], depth, betweens - 1, other); }
        else if depth == 0 && w == "BETWEEN" { PassesDeeper(ts[1..], depth, betweens + 1, other); }
        else { PassesDeeper(ts[1..], depth, betweens, other); }
      case _ => PassesDeeper(ts[1..], depth, betweens, other);
    }
  }

  lemma TextIsLeaf(d: Dialect, n: Node, text: Inline, ts: seq<Token>)
    requires InlineOf(d, n) == text && Reads(QuoteChar(d), text, ts) && OneLeaf(ts) && LeafTokens(d, n) == ts
    ensures ReadsAsLeaf(d, n)
  {}

  lemma CompareReads(d: Dialect, column: string, operator: string, right: Inline, rts: seq<Token>)
    requires IsOperand(d, column) && operator in OPERATORS && Reads(QuoteChar(d), right, rts) && Passes(rts, 0, 0) == Some((0, 0))
    ensures
      var ts := ColumnTokens(d, column) + OperatorTokens(operator) + rts;
      Reads(QuoteChar(d), Lit(QuoteQualified(d, column) + " " + operator + " ") + right, ts) && OneLeaf(ts)
  {
    var q, c, col := QuoteChar(d), ColumnTokens(d, column), QuoteQualified(d, column);
    ReadsColumn(d, column);
    ReadsOperator(d, operator);
    ReadsSpaced(q, Lit(col), c, Lit(operator), OperatorTokens(operator));
    ReadsSpaced(q, Lit(col) + Lit(" ") + Lit(operator), c + OperatorTokens(operator), right, rts);
    SpacedText(col, operator);
    LeafThenCalm(c, OperatorTokens(operator));
    LeafThen(c + OperatorTokens(operator), rts);
  }

  lemma SpacedText(a: string, b: string)
    ensures Lit(a + " " + b + " ") == Lit(a) + Lit(" ") + Lit(b) + Lit(" ")
  {
    LitConcat(a + " " + b, " ");
    LitConcat(a + " ", b);
    LitConcat(a, " ");
  }

  lemma ComparisonLeaf(d: Dialect, column: string, operator: string, value: Value)
    requires IsOperand(d, column) && operator in OPERATORS
    ensures ReadsAsLeaf(d, Comparison(column, operator, value))
  {
    ReadsValue(QuoteChar(d), value);
    CalmPasses([Bound(value)], 0, 0);
    CompareReads(d, column, operator, [Val(value)], [Bound(value)]);
    TextIsLeaf(d, Comparison(column, operator, value), Lit(QuoteQualified(d, column) + " " + operator + " ") + [Val(value)],
               ColumnTokens(d, column) + OperatorTokens(operator) + [Bound(value)]);
  }

  lemma ColumnComparisonLeaf(d: Dialect, col1: string, operator: string, col2: string)
    requires IsOperand(d, col1) && IsOperand(d, col2) && operator in OPERATORS
    ensures ReadsAsLeaf(d, ColumnComparison(col1, operator, col2))
  {
    var a, b := QuoteQualified(d, col1), QuoteQualified(d, col2);
    ReadsColumn(d, col2);
    CompareReads(d, col1, operator, Lit(b), ColumnTokens(d, col2));
    LitConcat(a + " " + operator + " ", b);
    TextIsLeaf(d, ColumnComparison(col1, operator, col2), Lit(a + " " + operator + " ") + Lit(b),
               ColumnTokens(d, col1) + OperatorTokens(operator) + ColumnTokens(d, col2));
  }

  lemma ReadsColumnWord(d: Dialect, column: string, w: string)
    requires IsOperand(d, column) && PlainWord(w)
    ensures Reads(QuoteChar(d), Lit(QuoteQualified(d, column) + " " + w), ColumnTokens(d, column) + [Word(w)])
  {
    var col := QuoteQualified(d, column);
    ReadsColumn(d, column);
    ReadsWord(d, w);
    ReadsSpaced(QuoteChar(d), Lit(col), ColumnTokens(d, column), Lit(w), [Word(w)]);
    assert Lit(col + " " + w) == Lit(col) + Lit(" ") + Lit(w);
  }

  lemma ReadsAnotherWord(d: Dialect, text: string, ts: seq<Token>, w: string)
    requires Reads(QuoteChar(d), Lit(text), ts) && PlainWord(w)
    ensures Reads(QuoteChar(d), Lit(text + " " + w), ts + [Word(w)])
  {
    ReadsWord(d, w);
    ReadsSpaced(QuoteChar(d), Lit(text), ts, Lit(w), [Word(w)]);
    assert Lit(text + " " + w) == Lit(text) + Lit(" ") + Lit(w);
  }

  lemma IsNullReads(d: Dialect, column: string)
    requires IsOperand(d, column)
    ensures Reads(QuoteChar(d), Lit(QuoteQualified(d, column) + " IS NULL"), ColumnTokens(d, column) + [Word("IS")] + [Word("NULL")])
  {
    var col := QuoteQualified(d, column);
    ReadsColumnWord(d, column, "IS");
    ReadsAnotherWord(d, col + " " + "IS", ColumnTokens(d, column) + [Word("IS")], "NULL");
    assert col + " " + "IS" + " " + "NULL" == col + " IS NULL";
  }

  lemma ReadsTwoWords(d: Dialect, text: string, ts: seq<Token>, w1: string, w2: string)
    requires Reads(QuoteChar(d), Lit(text), ts) && PlainWord(w1) && PlainWord(w2)
    ensures Reads(QuoteChar(d), Lit(text + " " + w1 + " " + w2), ts + [Word(w1)] + [Word(w2)])
  {
    ReadsAnotherWord(d, text, ts, w1);
    ReadsAnotherWord(d, text + " " + w1, ts + [Word(w1)], w2);
  }

  lemma IsNotNullReads(d: Dialect, column: string)
    requires IsOperand(d, column)
    ensures Reads(QuoteChar(d), Lit(QuoteQualified(d, column) + " IS NOT NULL"),
                  ColumnTokens(d, column) + [Word("IS")] + [Word("NOT")] + [Word("NULL")])
  {
    var col := QuoteQualified(d, column);
    ReadsColumnWord(d, column, "IS");
    ReadsTwoWords(d, col + " " + "IS", ColumnTokens(d, column) + [Word("IS")], "NOT", "NULL");
    IsNotNullText(col);
  }

  lemma IsNotNullText(col: string)
    ensures col + " " + "IS" + " " + "NOT" + " " + "NULL" == col + " IS NOT NULL"
  {
    var a, b := " " + "IS", " " + "NOT" + " " + "NULL";
    assert b == " NOT NULL";
    assert a + b == " IS NOT NULL";
    assert col + " " + "IS" == col + a;
    assert (col + a) + " " + "NOT" + " " + "NULL" == (col + a) + b;
    assert (col + a) + b == col + (a + b);
  }

  lemma NullTestLeaf(d: Dialect, column: string, isNull: bool)
    requires IsOperand(d, column)
    ensures ReadsAsLeaf(d, NullTest(column, isNull))
  {
    ReadsColumn(d, column);
    if isNull {
      IsNullReads(d, column);
      LeafThenCalm(ColumnTokens(d, column), [Word("IS")]);
      LeafThenCalm(ColumnTokens(d, column) + [Word("IS")], [Word("NULL")]);
    } else {
      IsNotNullReads(d, column);
      LeafThenCalm(ColumnTokens(d, column), [Word("IS")]);
      LeafThenCalm(ColumnTokens(d, column) + [Word("IS")], [Word("NOT")]);
      LeafThenCalm(ColumnTokens(d, column) + [Word("IS")] + [Word("NOT")], [Word("NULL")]);
    }
  }

  lemma BetweenLeaf(d: Dialect, column: string, start: Value, end: Value)
    requires IsOperand(d, column)
    ensures ReadsAsLeaf(d, Between(column, start, end))
  {
    BetweenText(d, column, start, end);
    BetweenReads(d, column, start, end);
    TextIsLeaf(d, Between(column, start, end),
               Lit(QuoteQualified(d, column) + " " + "BETWEEN") + Lit(" ") + [Val(start)] + Lit(" ") + Lit("AND") + Lit(" ") + [Val(end)],
               ColumnTokens(d, column) + [Word("BETWEEN")] + [Bound(start)] + [Word("AND")] + [Bound(end)]);
  }

  lemma BetweenReads(d: Dialect, column: string, start: Value, end: Value)
    requires IsOperand(d, column)
    ensures
      var ts := ColumnTokens(d, column) + [Word("BETWEEN")] + [Bound(start)] + [Word("AND")] + [Bound(end)];
      && Reads(QuoteChar(d), Lit(QuoteQualified(d, column) + " " + "BETWEEN") + Lit(" ") + [Val(start)] + Lit(" ") + Lit("AND") + Lit(" ") + [Val(end)], ts)
      && OneLeaf(ts)
  {
    var q, col, c := QuoteChar(d), QuoteQualified(d, column), ColumnTokens(d, column);
    ReadsColumn(d, column);
    ReadsColumnWord(d, column, "BETWEEN");
    ReadsValue(q, start);
    ReadsValue(q, end);
    ReadsWord(d, "AND");
    var t1 := Lit(col + " " + "BETWEEN");
    ReadsSpaced(q, t1, c + [Word("BETWEEN")], [Val(start)], [Bound(start)]);
    var t2 := t1 + Lit(" ") + [Val(start)];
    ReadsSpaced(q, t2, c + [Word("BETWEEN")] + [Bound(start)], Lit("AND"), [Word("AND")]);
    var ts := c + [Word("BETWEEN")] + [Bound(start)] + [Word("AND")];
    ReadsSpaced(q, t2 + Lit(" ") + Lit("AND"), ts, [Val(end)], [Bound(end)]);
    BetweenIsLeaf(c, start, end);
  }

  lemma BetweenIsLeaf(c: seq<Token>, start: Value, end: Value)
    requires OneLeaf(c)
    ensures OneLeaf(c + [Word("BETWEEN")] + [Bound(start)] + [Word("AND")] + [Bound(end)])
  {
    var rest := [Word("BETWEEN"), Bound(start), Word("AND"), Bound(end)];
    BetweenPasses(start, end);
    LeafThen(c, rest);
    assert c + [Word("BETWEEN")] + [Bound(start)] + [Word("AND")] + [Bound(end)] == c + rest;
  }

  lemma BetweenPasses(start: Value, end: Value)
    ensures Passes([Word("BETWEEN"), Bound(start), Word("AND"), Bound(end)], 0, 0) == Some((0, 0))
  {
    var ts := [Word("BETWEEN"), Bound(start), Word("AND"), Bound(end)];
    assert ts[1..] == [Bound(start), Word("AND"), Bound(end)];
    assert ts[1..][1..] == [Word("AND"), Bound(end)];
    assert ts[1..][1..][1..] == [Bound(end)];
    CalmPasses([Bound(end)], 0, 0);
    assert Passes(ts[1..][1..], 0, 1) == Some((0, 0));
    assert Passes(ts[1..], 0, 1) == Some((0, 0));
    assert |"BETWEEN"| != |"OR"| && |"BETWEEN"| != |"AND"|;
  }

  lemma BetweenText(d: Dialect, column: string, start: Value, end: Value)
    ensures InlineOf(d, Between(column, start, end)) ==
            Lit(QuoteQualified(d, column) + " " + "BETWEEN") + Lit(" ") + [Val(start)] + Lit(" ") + Lit("AND") + Lit(" ") + [Val(end)]
  {
    var col := QuoteQualified(d, column);
    var two := ValAll([start, end]);
    assert two == [[Val(start)], [Val(end)]] && two[1..] == [[Val(end)]];
    assert JoinInline(two, " AND ") == [Val(start)] + Lit(" AND ") + [Val(end)];
    assert Lit(" AND ") == Lit(" ") + Lit("AND") + Lit(" ");
    assert Lit(col + " BETWEEN ") == Lit(col + " " + "BETWEEN") + Lit(" ");
    assert Lit("") == [];
  }

  // --------------------------------------------------- parenthesised leaves

  /** Tokens of the form: start, parenthesis, closed inside, parenthesis. */
  lemma EnclosedIsLeaf(start: seq<Token>, inside: seq<Token>)
    requires OneLeaf(start) && Passes(inside, 1, 0) == Some((1, 0))
    ensures OneLeaf(start + [LParen] + inside + [RParen])
  {
    PassesConcat(start, [LParen], 0, 0);
    assert [LParen][1..] == [];
    PassesConcat(start + [LParen], inside, 0, 0);
    PassesConcat(start + [LParen] + inside, [RParen], 0, 0);
    assert [RParen][1..] == [];
  }

  lemma EnclosedReads(d: Dialect, pre: string, start: seq<Token>, t: Inline, inside: seq<Token>)
    requires Reads(QuoteChar(d), Lit(pre), start) && Reads(QuoteChar(d), t, inside)
    ensures Reads(QuoteChar(d), WrapInline(pre + "(", t, ")"), start + [LParen] + inside + [RParen])
  {
    var q := QuoteChar(d);
    ReadsThenMark(q, Lit(pre), start, '(');
    LitConcat(pre, "(");
    ReadsAfterMark(q, Lit(pre), start + [LParen], '(', t, inside);
    ReadsThenMark(q, Lit(pre) + Lit("(") + t, start + [LParen] + inside, ')');
  }

  function ListTokens(values: seq<Value>): seq<Token> {
    if |values| == 0 then []
    else if |values| == 1 then [Bound(values[0])]
    else [Bound(values[0]), Comma] + ListTokens(values[1..])
  }

  lemma {:induction false} ReadsList(q: char, values: seq<Value>)
    requires QuoteMark(q)
    ensures Reads(q, JoinInline(ValAll(values), ", "), ListTokens(values)) && Calm(ListTokens(values))
  {
    if |values| == 1 {
      ReadsValue(q, values[0]);
    } else if |values| > 1 {
      assert ValAll(values)[1..] == ValAll(values[1..]);
      ReadsList(q, values[1..]);
      ReadsValue(q, values[0]);
      ReadsThenMark(q, [Val(values[0])], [Bound(values[0])], ',');
      var head := [Bound(values[0])] + [Comma];
      ReadsSpaced(q, [Val(values[0])] + Lit(","), head, JoinInline(ValAll(values[1..]), ", "), ListTokens(values[1..]));
      assert Lit(", ") == Lit(",") + Lit(" ");
      assert [Val(values[0])] + Lit(", ") == [Val(values[0])] + Lit(",") + Lit(" ");
      assert head == [Bound(values[0]), Comma];
    }
  }

  /** name IN or name NOT IN, without its parenthesis. */
  function InTokens(negate: bool): seq<Token> {
    if negate then [Word("NOT"), Word("IN")] else [Word("IN")]
  }

  lemma ReadsIn(d: Dialect, text: string, ts: seq<Token>, negate: bool)
    requires Reads(QuoteChar(d), Lit(text), ts)
    ensures
      var pre := text + if negate then " NOT IN " else " IN ";
      && pre + "(" == text + InOpen(negate)
      && Reads(QuoteChar(d), Lit(pre), ts + InTokens(negate))
  {
    var q := QuoteChar(d);
    if negate {
      ReadsAnotherWord(d, text, ts, "NOT");
      ReadsAnotherWord(d, text + " " + "NOT", ts + [Word("NOT")], "IN");
      assert ts + [Word("NOT")] + [Word("IN")] == ts + InTokens(negate);
      ReadsBlank(q, text + " " + "NOT" + " " + "IN", ts + InTokens(negate));
      assert text + " " + "NOT" + " " + "IN" + " " == text + " NOT IN ";
    } else {
      ReadsAnotherWord(d, text, ts, "IN");
      ReadsBlank(q, text + " " + "IN", ts + InTokens(negate));
      assert text + " " + "IN" + " " == text + " IN ";
    }
  }

  lemma ReadsBlank(q: char, text: string, ts: seq<Token>)
    requires QuoteMark(q) && Reads(q, Lit(text), ts)
    ensures Reads(q, Lit(text + " "), ts)
  {
    assert Lit(" ") == [Chr(' ')] && Lit(" ")[1..] == [];
    assert Lex(q, []) == Some([]);
    ReadsConcat(q, Lit(text), ts, Lit(" "), []);
    LitConcat(text, " ");
    assert ts + [] == ts;
  }

  lemma InListLeaf(d: Dialect, column: string, values: seq<Value>, notIn: bool)
    requires IsOperand(d, column)
    ensures ReadsAsLeaf(d, InList(column, values, notIn))
  {
    if values == [] {
      var w := if notIn then "1=1" else "1=0";
      ReadsWord(d, w);
      CalmPasses([Word(w)], 0, 0);
      TextIsLeaf(d, InList(column, values, notIn), Lit(w), [Word(w)]);
    } else {
      InListReads(d, column, values, notIn);
      TextIsLeaf(d, InList(column, values, notIn),
                 WrapInline(QuoteQualified(d, column) + InOpen(notIn), JoinInline(ValAll(values), ", "), ")"),
                 ColumnTokens(d, column) + InTokens(notIn) + [LParen] + ListTokens(values) + [RParen]);
    }
  }

  lemma InListReads(d: Dialect, column: string, values: seq<Value>, notIn: bool)
    requires IsOperand(d, column) && values != []
    ensures
      var ts := ColumnTokens(d, column) + InTokens(notIn) + [LParen] + ListTokens(values) + [RParen];
      Reads(QuoteChar(d), WrapInline(QuoteQualified(d, column) + InOpen(notIn), JoinInline(ValAll(values), ", "), ")"), ts) && OneLeaf(ts)
  {
    var c, text := ColumnTokens(d, column), QuoteQualified(d, column);
    ReadsColumn(d, column);
    ReadsIn(d, text, c, notIn);
    ReadsList(QuoteChar(d), values);
    EnclosedReads(d, text + (if notIn then " NOT IN " else " IN "), c + InTokens(notIn),
                  JoinInline(ValAll(values), ", "), ListTokens(values));
    CalmPasses(ListTokens(values), 1, 0);
    LeafThenCalm(c, InTokens(notIn));
    EnclosedIsLeaf(c + InTokens(notIn), ListTokens(values));
  }

  lemma InReads(d: Dialect, column: string, t: Inline, inside: seq<Token>, negate: bool)
    requires Reads(QuoteChar(d), t, inside) && Passes(inside, 1, 0) == Some((1, 0))
    ensures
      var ts := [Name(column)] + InTokens(negate) + [LParen] + inside + [RParen];
      Reads(QuoteChar(d), WrapInline(Quote(d, column) + InOpen(negate), t, ")"), ts) && OneLeaf(ts)
  {
    var text, start := Quote(d, column), [Name(column)] + InTokens(negate);
    LexQuoted(d, column);
    ReadsIn(d, text, [Name(column)], negate);
    EnclosedReads(d, text + (if negate then " NOT IN " else " IN "), start, t, inside);
    CalmPasses(start, 0, 0);
    EnclosedIsLeaf(start, inside);
  }

  lemma ClosedReads(d: Dialect, t: Inline)
    requires Closed(d, t)
    ensures Reads(QuoteChar(d), t, TextTokens(d, t)) && Passes(TextTokens(d, t), 1, 0) == Some((1, 0))
  {}

  lemma InLeafReads(d: Dialect, column: string, t: Inline, negate: bool)
    requires Closed(d, t)
    ensures
      var ts := [Name(column)] + InTokens(negate) + [LParen] + TextTokens(d, t) + [RParen];
      Reads(QuoteChar(d), WrapInline(Quote(d, column) + InOpen(negate), t, ")"), ts) && OneLeaf(ts)
  {
    ClosedReads(d, t);
    InReads(d, column, t, TextTokens(d, t), negate);
  }

  /** A nested statement can stand between parentheses, whatever it is made of. */
  lemma StatementIsClosed(d: Dialect, s: Select)
    requires IsStatement(d, s)
    ensures Closed(d, InlineSelect(d, s))
  {
    StatementIsBalanced(d, s);
    BalancedIsClosed(d, InlineSelect(d, s));
  }

  lemma BalancedIsClosed(d: Dialect, t: Inline)
    requires Balanced(QuoteChar(d), t)
    ensures Closed(d, t)
  {
    ScannedPasses(QuoteChar(d), t, 0, 0);
  }

  lemma InSubqueryLeaf(d: Dialect, column: string, subquery: Select, negate: bool)
    requires IsStatement(d, subquery)
    ensures ReadsAsLeaf(d, InSubquery(column, subquery, negate))
  {
    StatementIsClosed(d, subquery);
    InSubqueryText(d, column, subquery, negate);
    InSubqueryTokensAre(d, column, subquery, negate);
    InSubqueryIsLeaf(d, InSubquery(column, subquery, negate), InlineSelect(d, subquery));
  }

  lemma InSubqueryTokensAre(d: Dialect, column: string, subquery: Select, negate: bool)
    ensures LeafTokens(d, InSubquery(column, subquery, negate)) == InSubqueryTokens(column, negate, StatementTokens(d, subquery))
  {}

  lemma InSubqueryIsLeaf(d: Dialect, n: Node, t: Inline)
    requires n.InSubquery? && Closed(d, t) && InlineOf(d, n) == WrapInline(Quote(d, n.column) + InOpen(n.negate), t, ")")
    requires LeafTokens(d, n) == InSubqueryTokens(n.column, n.negate, TextTokens(d, t))
    ensures ReadsAsLeaf(d, n)
  {
    InLeafReads(d, n.column, t, n.negate);
  }

  lemma InSubqueryText(d: Dialect, column: string, subquery: Select, negate: bool)
    requires SelectError(subquery).None?
    ensures InlineOf(d, InSubquery(column, subquery, negate)) == WrapInline(Quote(d, column) + InOpen(negate), InlineSelect(d, subquery), ")")
  {}

  lemma ExistsText(d: Dialect, n: Node)
    requires n.Exists? && SelectError(n.subquery).None?
    ensures InlineOf(d, n) == WrapInline(ExistsOpen(n.negate), InlineSelect(d, n.subquery), ")")
  {}

  lemma ExistsReads(d: Dialect, t: Inline)
    requires Closed(d, t)
    ensures Reads(QuoteChar(d), WrapInline(ExistsOpen(false), t, ")"), ExistsTokens(TextTokens(d, t)))
    ensures OneLeaf(ExistsTokens(TextTokens(d, t)))
  {
    var inside := TextTokens(d, t);
    ClosedReads(d, t);
    ReadsWord(d, "EXISTS");
    ReadsBlank(QuoteChar(d), "EXISTS", [Word("EXISTS")]);
    assert "EXISTS" + " " + "(" == ExistsOpen(false);
    EnclosedReads(d, "EXISTS" + " ", [Word("EXISTS")], t, inside);
    CalmPasses([Word("EXISTS")], 0, 0);
    EnclosedIsLeaf([Word("EXISTS")], inside);
  }

  lemma NotExistsReads(d: Dialect, t: Inline)
    requires Closed(d, t)
    ensures Reads(QuoteChar(d), WrapInline(ExistsOpen(true), t, ")"), [Word("NOT")] + ExistsTokens(TextTokens(d, t)))
  {
    ExistsReads(d, t);
    ReadsWord(d, "NOT");
    ReadsSpaced(QuoteChar(d), Lit("NOT"), [Word("NOT")], WrapInline(ExistsOpen(false), t, ")"), ExistsTokens(TextTokens(d, t)));
    NotExistsText(d, t);
  }

  lemma ExistsTokensAre(d: Dialect, subquery: Select, negate: bool)
    ensures LeafTokens(d, Exists(subquery, negate)) == ExistsTokens(StatementTokens(d, subquery))
  {}

  lemma ExistsIsLeaf(d: Dialect, n: Node, t: Inline)
    requires Closed(d, t) && InlineOf(d, n) == WrapInline(ExistsOpen(false), t, ")") && LeafTokens(d, n) == ExistsTokens(TextTokens(d, t))
    ensures ReadsAsLeaf(d, n)
  {
    ExistsReads(d, t);
  }

  lemma ExistsLeaf(d: Dialect, subquery: Select)
    requires IsStatement(d, subquery)
    ensures ReadsAsLeaf(d, Exists(subquery, false))
  {
    StatementIsClosed(d, subquery);
    ExistsText(d, Exists(subquery, false));
    ExistsTokensAre(d, subquery, false);
    ExistsIsLeaf(d, Exists(subquery, false), InlineSelect(d, subquery));
  }

  lemma NotExistsIsNegation(d: Dialect, n: Node, t: Inline, ts: seq<Token>)
    requires Closed(d, t) && InlineOf(d, n) == WrapInline(ExistsOpen(true), t, ")") && ts == ExistsTokens(TextTokens(d, t))
    ensures Reads(QuoteChar(d), InlineOf(d, n), [Word("NOT")] + ts)
  {
    NotExistsReads(d, t);
  }

  /** NOT EXISTS is read as the negation of the EXISTS predicate. */
  lemma NotExistsLeaf(d: Dialect, subquery: Select)
    requires IsStatement(d, subquery)
    ensures Reads(QuoteChar(d), InlineOf(d, Exists(subquery, true)), [Word("NOT")] + LeafTokens(d, Exists(subquery, false)))
  {
    StatementIsClosed(d, subquery);
    ExistsText(d, Exists(subquery, true));
    ExistsTokensAre(d, subquery, false);
    NotExistsIsNegation(d, Exists(subquery, true), InlineSelect(d, subquery), LeafTokens(d, Exists(subquery, false)));
  }

  lemma NotExistsText(d: Dialect, t: Inline)
    ensures WrapInline(ExistsOpen(true), t, ")") == Lit("NOT") + Lit(" ") + WrapInline(ExistsOpen(false), t, ")")
  {
    assert "NOT EXISTS (" == "NOT" + " " + "EXISTS (";
    LitConcat("NOT" + " ", "EXISTS (");
    LitConcat("NOT", " ");
    assert Lit("NOT") + Lit(" ") + (Lit("EXISTS (") + t + Lit(")")) == (Lit("NOT") + Lit(" ") + Lit("EXISTS (")) + t + Lit(")");
  }

  lemma ILikeReads(d: Dialect, column: string, v: Value)
    requires IsOperand(d, column)
    ensures
      var ts := ColumnTokens(d, column) + [Word("ILIKE")] + [Bound(v)];
      Reads(QuoteChar(d), Lit(QuoteQualified(d, column) + " ILIKE ") + [Val(v)], ts) && OneLeaf(ts)
  {
    var q, c, col := QuoteChar(d), ColumnTokens(d, column), QuoteQualified(d, column);
    ReadsColumn(d, column);
    ReadsValue(q, v);
    ReadsColumnWord(d, column, "ILIKE");
    ReadsSpaced(q, Lit(col + " " + "ILIKE"), c + [Word("ILIKE")], [Val(v)], [Bound(v)]);
    assert Lit(col + " ILIKE ") == Lit(col + " " + "ILIKE") + Lit(" ");
    LeafThenCalm(c, [Word("ILIKE")]);
    LeafThenCalm(c + [Word("ILIKE")], [Bound(v)]);
  }

  lemma LoweredColumnReads(d: Dialect, column: string)
    requires IsOperand(d, column)
    ensures Reads(QuoteChar(d), Lit("LOWER(" + QuoteQualified(d, column) + ")"), [Word("LOWER")] + [LParen] + ColumnTokens(d, column) + [RParen])
  {
    var col := QuoteQualified(d, column);
    ReadsColumn(d, column);
    ReadsWord(d, "LOWER");
    EnclosedReads(d, "LOWER", [Word("LOWER")], Lit(col), ColumnTokens(d, column));
    LitConcat("LOWER" + "(", col);
    LitConcat("LOWER" + "(" + col, ")");
    assert "LOWER" + "(" == "LOWER(";
  }

  lemma LoweredReads(d: Dialect, column: string, v: Value)
    requires IsOperand(d, column)
    ensures
      var first := [Word("LOWER")] + [LParen] + ColumnTokens(d, column) + [RParen];
      var ts := first + [Word("LIKE")] + [Word("LOWER")] + [LParen] + [Bound(v)] + [RParen];
      Reads(QuoteChar(d), WrapInline("LOWER(" + QuoteQualified(d, column) + ") LIKE LOWER(", [Val(v)], ")"), ts) && OneLeaf(ts)
  {
    var first := [Word("LOWER")] + [LParen] + ColumnTokens(d, column) + [RParen];
    LoweredColumnReads(d, column);
    LikeLowerReads(d, "LOWER(" + QuoteQualified(d, column) + ")", first, v);
    assert "LOWER(" + QuoteQualified(d, column) + ")" + " LIKE LOWER(" == "LOWER(" + QuoteQualified(d, column) + ") LIKE LOWER(";
    ReadsColumn(d, column);
    LoweredIsLeaf(ColumnTokens(d, column));
    LikeLowerIsLeaf(first, v);
  }

  lemma LikeLowerReads(d: Dialect, text: string, first: seq<Token>, v: Value)
    requires Reads(QuoteChar(d), Lit(text), first)
    ensures Reads(QuoteChar(d), WrapInline(text + " LIKE LOWER(", [Val(v)], ")"), first + [Word("LIKE")] + [Word("LOWER")] + [LParen] + [Bound(v)] + [RParen])
  {
    ReadsTwoWords(d, text, first, "LIKE", "LOWER");
    ReadsValue(QuoteChar(d), v);
    EnclosedReads(d, text + " " + "LIKE" + " " + "LOWER", first + [Word("LIKE")] + [Word("LOWER")], [Val(v)], [Bound(v)]);
    assert text + " " + "LIKE" + " " + "LOWER" + "(" == text + " LIKE LOWER(";
  }

  lemma LoweredIsLeaf(c: seq<Token>)
    requires OneLeaf(c)
    ensures OneLeaf([Word("LOWER")] + [LParen] + c + [RParen])
  {
    PassesDeeper(c, 0, 0, 0);
    CalmPasses([Word("LOWER")], 0, 0);
    EnclosedIsLeaf([Word("LOWER")], c);
  }

  lemma LikeLowerIsLeaf(first: seq<Token>, v: Value)
    requires OneLeaf(first)
    ensures OneLeaf(first + [Word("LIKE")] + [Word("LOWER")] + [LParen] + [Bound(v)] + [RParen])
  {
    LeafThenCalm(first, [Word("LIKE")]);
    LeafThenCalm(first + [Word("LIKE")], [Word("LOWER")]);
    CalmPasses([Bound(v)], 1, 0);
    EnclosedIsLeaf(first + [Word("LIKE")] + [Word("LOWER")], [Bound(v)]);
  }

  lemma ILikeLeaf(d: Dialect, column: string, pattern: string)
    requires IsOperand(d, column)
    ensures ReadsAsLeaf(d, ILike(column, pattern))
  {
    if d.Postgres? { ILikeReads(d, column, StringValue(pattern)); } else { LoweredReads(d, column, StringValue(pattern)); }
  }

  // --------------------------------------------------- trees

  /** The formula a condition tree is read as. */
  function Shape(d: Dialect, n: Node): Formula
    requires IsCondition(d, n)
    decreases n
  {
    match n
    case Logical(operator, conditions) =>
      if conditions == [] then Leaf([Word("1=1")])
      else if operator == "AND" then ShapeAnd(d, conditions) else ShapeOr(d, conditions)
    case Not(condition) => NotF(Shape(d, condition))
    case Exists(subquery, negate) =>
      var leaf := Leaf(LeafTokens(d, n));
      if negate then NotF(leaf) else leaf
    case _ => Leaf(LeafTokens(d, n))
  }

  function ShapeAnd(d: Dialect, ns: seq<Node>): Formula
    requires ns != [] && AreConditions(d, ns)
    decreases ns
  {
    if |ns| == 1 then Shape(d, ns[0]) else AndF(Shape(d, ns[0]), ShapeAnd(d, ns[1..]))
  }

  function ShapeOr(d: Dialect, ns: seq<Node>): Formula
    requires ns != [] && AreConditions(d, ns)
    decreases ns
  {
    if |ns| == 1 then Shape(d, ns[0]) else OrF(Shape(d, ns[0]), ShapeOr(d, ns[1..]))
  }

  /** Tokens of a list of conditions joined by a keyword. */
  function JoinedTokens(d: Dialect, ns: seq<Node>, keyword: string): seq<Token> {
    if |ns| == 0 then []
    else if |ns| == 1 then TokensOf(d, ns[0])
    else TokensOf(d, ns[0]) + [Word(keyword)] + JoinedTokens(d, ns[1..], keyword)
  }

  /** What a printed condition is to its surroundings: wherever one may stand,
      exactly its tokens are taken, and they are read as its own shape. */
  ghost predicate StandsAlone(d: Dialect, n: Node)
    requires IsCondition(d, n)
  {
    Reads(QuoteChar(d), InlineOf(d, n), TokensOf(d, n)) && Unit(TokensOf(d, n), Shape(d, n))
  }

  /** Wherever a condition may stand, exactly these tokens are taken, and they
      are read as the formula. */
  ghost predicate Unit(ts: seq<Token>, f: Formula) {
    forall rest :: Stops(rest) ==> ParseNot(ts + rest) == Parsed(f, rest)
  }

  lemma LeafStandsAlone(d: Dialect, n: Node)
    requires IsCondition(d, n) && ReadsAsLeaf(d, n) && Shape(d, n) == Leaf(LeafTokens(d, n))
    ensures StandsAlone(d, n)
  {
    forall rest | Stops(rest) ensures ParseNot(TokensOf(d, n) + rest) == Parsed(Shape(d, n), rest) {
      LeafIsParsed(TokensOf(d, n), rest);
    }
  }

  lemma {:induction false} ConditionStandsAlone(d: Dialect, n: Node)
    requires IsCondition(d, n)
    ensures StandsAlone(d, n)
    decreases n
  {
    match n
    case Comparison(column, operator, value) => ComparisonLeaf(d, column, operator, value); LeafStandsAlone(d, n);
    case ILike(column, pattern) => ILikeLeaf(d, column, pattern); LeafStandsAlone(d, n);
    case NullTest(column, isNull) => NullTestLeaf(d, column, isNull); LeafStandsAlone(d, n);
    case InList(column, values, notIn) => InListLeaf(d, column, values, notIn); LeafStandsAlone(d, n);
    case Between(column, start, end) => BetweenLeaf(d, column, start, end); LeafStandsAlone(d, n);
    case ColumnComparison(col1, operator, col2) => ColumnComparisonLeaf(d, col1, operator, col2); LeafStandsAlone(d, n);
    case InSubquery(column, subquery, negate) => InSubqueryLeaf(d, column, subquery, negate); LeafStandsAlone(d, n);
    case Exists(subquery, negate) => ExistsStandsAlone(d, subquery, negate);
    case Not(condition) => ConditionStandsAlone(d, condition); NotStandsAlone(d, condition);
    case Logical(operator, conditions) => AllStandAlone(d, conditions); LogicalStandsAlone(d, operator, conditions);
  }

  lemma {:induction false} AllStandAlone(d: Dialect, ns: seq<Node>)
    requires AreConditions(d, ns)
    ensures forall i :: 0 <= i < |ns| ==> IsCondition(d, ns[i]) && StandsAlone(d, ns[i])
    decreases ns
  {
    if ns != [] {
      ConditionStandsAlone(d, ns[0]);
      AllStandAlone(d, ns[1..]);
    }
  }

  lemma NotIsParsed(ts: seq<Token>, f: Formula, rest: seq<Token>)
    requires ParseNot(ts + rest) == Parsed(f, rest)
    ensures ParseNot([Word("NOT")] + ts + rest) == Parsed(NotF(f), rest)
  {
    assert ([Word("NOT")] + ts + rest)[1..] == ts + rest;
  }

  lemma ExistsStandsAlone(d: Dialect, subquery: Select, negate: bool)
    requires IsCondition(d, Exists(subquery, negate))
    ensures StandsAlone(d, Exists(subquery, negate))
  {
    var leaf := Exists(subquery, false);
    ExistsLeaf(d, subquery);
    LeafStandsAlone(d, leaf);
    if negate {
      NotExistsLeaf(d, subquery);
      forall rest | Stops(rest)
        ensures ParseNot([Word("NOT")] + TokensOf(d, leaf) + rest) == Parsed(NotF(Shape(d, leaf)), rest)
      {
        NotIsParsed(TokensOf(d, leaf), Shape(d, leaf), rest);
      }
    }
  }

  /** Before a closing parenthesis or the end, one unit is a whole formula. */
  lemma UnitIsFormula(ts: seq<Token>, f: Formula, rest: seq<Token>)
    requires ParseNot(ts + rest) == Parsed(f, rest) && (rest == [] || rest[0] == RParen)
    ensures ParseOr(ts + rest) == Parsed(f, rest)
  {
    assert ParseAnd(ts + rest) == Parsed(f, rest);
  }

  lemma EnclosedIsParsed(ts: seq<Token>, f: Formula, rest: seq<Token>)
    requires ParseOr(ts + ([RParen] + rest)) == Parsed(f, [RParen] + rest)
    ensures ParseNot([LParen] + ts + [RParen] + rest) == Parsed(f, rest)
  {
    var all := [LParen] + ts + [RParen] + rest;
    assert all[1..] == ts + ([RParen] + rest);
    assert ([RParen] + rest)[1..] == rest;
    assert ParsePrimary(all) == Parsed(f, rest);
  }

  lemma NotReads(d: Dialect, t: Inline, ts: seq<Token>)
    requires Reads(QuoteChar(d), t, ts)
    ensures Reads(QuoteChar(d), WrapInline("NOT (", t, ")"), [Word("NOT")] + [LParen] + ts + [RParen])
  {
    ReadsWord(d, "NOT");
    ReadsBlank(QuoteChar(d), "NOT", [Word("NOT")]);
    EnclosedReads(d, "NOT" + " ", [Word("NOT")], t, ts);
    assert "NOT" + " " + "(" == "NOT (";
  }

  lemma NotStandsAlone(d: Dialect, condition: Node)
    requires IsCondition(d, condition) && StandsAlone(d, condition)
    ensures StandsAlone(d, Not(condition))
  {
    var ts, f := TokensOf(d, condition), Shape(d, condition);
    NotReads(d, InlineOf(d, condition), ts);
    var all := [Word("NOT")] + [LParen] + ts + [RParen];
    forall rest | Stops(rest) ensures ParseNot(all + rest) == Parsed(NotF(f), rest) {
      assert Stops([RParen] + rest);
      assert ParseNot(ts + ([RParen] + rest)) == Parsed(f, [RParen] + rest);
      NegationIsParsed(ts, f, rest);
    }
    TextStandsAlone(d, Not(condition), WrapInline("NOT (", InlineOf(d, condition), ")"), all, NotF(f));
  }

  lemma NegationIsParsed(ts: seq<Token>, f: Formula, rest: seq<Token>)
    requires ParseNot(ts + ([RParen] + rest)) == Parsed(f, [RParen] + rest)
    ensures ParseNot([Word("NOT")] + [LParen] + ts + [RParen] + rest) == Parsed(NotF(f), rest)
  {
    UnitIsFormula(ts, f, [RParen] + rest);
    EnclosedIsParsed(ts, f, rest);
    NotIsParsed([LParen] + ts + [RParen], f, rest);
    assert [Word("NOT")] + ([LParen] + ts + [RParen]) + rest == [Word("NOT")] + [LParen] + ts + [RParen] + rest;
  }

  lemma TextStandsAlone(d: Dialect, n: Node, text: Inline, ts: seq<Token>, f: Formula)
    requires IsCondition(d, n) && InlineOf(d, n) == text && Reads(QuoteChar(d), text, ts) && Shape(d, n) == f
    requires forall rest :: Stops(rest) ==> ParseNot(ts + rest) == Parsed(f, rest)
    ensures StandsAlone(d, n)
  {
    assert TokensOf(d, n) == ts;
  }

  ghost predicate AllStand(d: Dialect, ns: seq<Node>) {
    forall i :: 0 <= i < |ns| ==> IsCondition(d, ns[i]) && StandsAlone(d, ns[i])
  }

  lemma ReadsKeyword(d: Dialect, t: Inline, ts: seq<Token>, keyword: string, rest: Inline, rts: seq<Token>)
    requires PlainWord(keyword) && Reads(QuoteChar(d), t, ts) && Reads(QuoteChar(d), rest, rts)
    ensures Reads(QuoteChar(d), t + Lit(" " + keyword + " ") + rest, ts + [Word(keyword)] + rts)
  {
    var q := QuoteChar(d);
    ReadsWord(d, keyword);
    ReadsSpaced(q, t, ts, Lit(keyword), [Word(keyword)]);
    ReadsSpaced(q, t + Lit(" ") + Lit(keyword), ts + [Word(keyword)], rest, rts);
    assert Lit(" " + keyword + " ") == Lit(" ") + Lit(keyword) + Lit(" ");
    assert t + Lit(" " + keyword + " ") == t + Lit(" ") + Lit(keyword) + Lit(" ");
  }

  ghost predicate AllRead(d: Dialect, ns: seq<Node>) {
    forall i :: 0 <= i < |ns| ==> Reads(QuoteChar(d), InlineOf(d, ns[i]), TokensOf(d, ns[i]))
  }

  lemma StandingAreRead(d: Dialect, ns: seq<Node>)
    requires AllStand(d, ns)
    ensures AllRead(d, ns)
  {
    forall i | 0 <= i < |ns| ensures Reads(QuoteChar(d), InlineOf(d, ns[i]), TokensOf(d, ns[i])) { assert StandsAlone(d, ns[i]); }
  }

  lemma {:induction false} ReadsJoined(d: Dialect, ns: seq<Node>, keyword: string)
    requires AllRead(d, ns) && PlainWord(keyword)
    ensures Reads(QuoteChar(d), JoinInline(InlineAll(d, ns), " " + keyword + " "), JoinedTokens(d, ns, keyword))
  {
    if |ns| == 0 {
      assert Lex(QuoteChar(d), []) == Some([]);
    } else {
      assert Reads(QuoteChar(d), InlineOf(d, ns[0]), TokensOf(d, ns[0]));
      if |ns| > 1 {
        ReadsJoined(d, ns[1..], keyword);
        ReadsKeyword(d, InlineOf(d, ns[0]), TokensOf(d, ns[0]), keyword,
                     JoinInline(InlineAll(d, ns[1..]), " " + keyword + " "), JoinedTokens(d, ns[1..], keyword));
      }
    }
  }

  lemma JoinedStep(ts: seq<Token>, f: Formula, keyword: string, more: seq<Token>, rest: seq<Token>)
    requires Unit(ts, f) && (keyword == "AND" || keyword == "OR")
    ensures
      var tail := [Word(keyword)] + (more + rest);
      && ts + [Word(keyword)] + more + rest == ts + tail && tail[1..] == more + rest
      && ParseNot(ts + tail) == Parsed(f, tail)
  {
    var tail := [Word(keyword)] + (more + rest);
    assert Stops(tail);
  }

  lemma AndIsParsed(ts: seq<Token>, f: Formula, more: seq<Token>, g: Formula, rest: seq<Token>)
    requires Unit(ts, f) && ParseAnd(more + rest) == Parsed(g, rest)
    ensures ParseAnd(ts + [Word("AND")] + more + rest) == Parsed(AndF(f, g), rest)
  {
    JoinedStep(ts, f, "AND", more, rest);
  }

  lemma OrIsParsed(ts: seq<Token>, f: Formula, more: seq<Token>, g: Formula, rest: seq<Token>)
    requires Unit(ts, f) && ParseOr(more + rest) == Parsed(g, rest)
    ensures ParseOr(ts + [Word("OR")] + more + rest) == Parsed(OrF(f, g), rest)
  {
    var tail := [Word("OR")] + (more + rest);
    JoinedStep(ts, f, "OR", more, rest);
    assert ParseAnd(ts + tail) == Parsed(f, tail);
  }

  lemma {:induction false} AndListIsParsed(d: Dialect, ns: seq<Node>, rest: seq<Token>)
    requires ns != [] && AreConditions(d, ns) && AllStand(d, ns) && (rest == [] || rest[0] == RParen)
    ensures ParseAnd(JoinedTokens(d, ns, "AND") + rest) == Parsed(ShapeAnd(d, ns), rest)
  {
    assert StandsAlone(d, ns[0]);
    if |ns| > 1 {
      AndListIsParsed(d, ns[1..], rest);
      AndIsParsed(TokensOf(d, ns[0]), Shape(d, ns[0]), JoinedTokens(d, ns[1..], "AND"), ShapeAnd(d, ns[1..]), rest);
    }
  }

  lemma {:induction false} OrListIsParsed(d: Dialect, ns: seq<Node>, rest: seq<Token>)
    requires ns != [] && AreConditions(d, ns) && AllStand(d, ns) && (rest == [] || rest[0] == RParen)
    ensures ParseOr(JoinedTokens(d, ns, "OR") + rest) == Parsed(ShapeOr(d, ns), rest)
  {
    assert StandsAlone(d, ns[0]);
    if |ns| == 1 {
      UnitIsFormula(TokensOf(d, ns[0]), Shape(d, ns[0]), rest);
    } else {
      OrListIsParsed(d, ns[1..], rest);
      OrIsParsed(TokensOf(d, ns[0]), Shape(d, ns[0]), JoinedTokens(d, ns[1..], "OR"), ShapeOr(d, ns[1..]), rest);
    }
  }

  lemma AndListIsFormula(d: Dialect, ns: seq<Node>, rest: seq<Token>)
    requires ns != [] && AreConditions(d, ns) && AllStand(d, ns) && (rest == [] || rest[0] == RParen)
    ensures ParseOr(JoinedTokens(d, ns, "AND") + rest) == Parsed(ShapeAnd(d, ns), rest)
  {
    AndListIsParsed(d, ns, rest);
  }

  lemma LogicalText(d: Dialect, operator: string, conditions: seq<Node>)
    requires |conditions| > 1
    ensures InlineOf(d, Logical(operator, conditions)) == WrapInline("(", JoinInline(InlineAll(d, conditions), " " + operator + " "), ")")
  {}

  lemma LogicalReads(d: Dialect, operator: string, conditions: seq<Node>)
    requires operator in {"AND", "OR"} && AllStand(d, conditions) && |conditions| > 1
    ensures Reads(QuoteChar(d), WrapInline("(", JoinInline(InlineAll(d, conditions), " " + operator + " "), ")"),
                  [LParen] + JoinedTokens(d, conditions, operator) + [RParen])
  {
    StandingAreRead(d, conditions);
    ReadsJoined(d, conditions, operator);
    ParenthesesRead(d, JoinInline(InlineAll(d, conditions), " " + operator + " "), JoinedTokens(d, conditions, operator));
  }

  lemma ParenthesesRead(d: Dialect, t: Inline, ts: seq<Token>)
    requires Reads(QuoteChar(d), t, ts)
    ensures Reads(QuoteChar(d), WrapInline("(", t, ")"), [LParen] + ts + [RParen])
  {
    assert Lit("") == [] && Lex(QuoteChar(d), []) == Some([]);
    EnclosedReads(d, "", [], t, ts);
    assert "" + "(" == "(";
    assert [] + [LParen] == [LParen];
  }

  lemma LogicalStandsAlone(d: Dialect, operator: string, conditions: seq<Node>)
    requires IsCondition(d, Logical(operator, conditions)) && AllStand(d, conditions)
    ensures StandsAlone(d, Logical(operator, conditions))
  {
    var n := Logical(operator, conditions);
    if |conditions| == 0 {
      var ts := [Word("1=1")];
      ReadsWord(d, "1=1");
      CalmPasses(ts, 0, 0);
      forall rest | Stops(rest) ensures ParseNot(ts + rest) == Parsed(Leaf(ts), rest) { LeafIsParsed(ts, rest); }
      TextStandsAlone(d, n, Lit("1=1"), ts, Leaf(ts));
    } else if |conditions| == 1 {
      assert StandsAlone(d, conditions[0]);
      assert InlineOf(d, n) == InlineOf(d, conditions[0]);
    } else {
      LogicalReads(d, operator, conditions);
      var ts, f := JoinedTokens(d, conditions, operator), Shape(d, n);
      forall rest | Stops(rest) ensures ParseNot([LParen] + ts + [RParen] + rest) == Parsed(f, rest) {
        if operator == "AND" {
          AndListIsFormula(d, conditions, [RParen] + rest);
        } else {
          OrListIsParsed(d, conditions, [RParen] + rest);
        }
        EnclosedIsParsed(ts, f, rest);
      }
      LogicalText(d, operator, conditions);
      TextStandsAlone(d, n, WrapInline("(", JoinInline(InlineAll(d, conditions), " " + operator + " "), ")"), [LParen] + ts + [RParen], f);
    }
  }

  // --------------------------------------------------- truth

  lemma {:induction false} ShapeMeansTheTree(d: Dialect, n: Node, env: seq<Token> -> Truth)
    requires IsCondition(d, n) && Valuation(env)
    ensures Eval(Shape(d, n), env) == Meaning(d, n, env)
    decreases n
  {
    match n
    case Not(condition) => ShapeMeansTheTree(d, condition, env);
    case Logical(operator, conditions) => if conditions != [] { ShapesMeanTheLists(d, conditions, env); }
    case _ =>
  }

  lemma ListOfOne(d: Dialect, n: Node, env: seq<Token> -> Truth)
    ensures All(d, [n], env) == Meaning(d, n, env) == Any(d, [n], env)
  {
    assert [n][1..] == [];
    assert All(d, [], env) == True && Any(d, [], env) == False;
  }

  lemma {:induction false} ShapesMeanTheLists(d: Dialect, ns: seq<Node>, env: seq<Token> -> Truth)
    requires ns != [] && AreConditions(d, ns) && Valuation(env)
    ensures Eval(ShapeAnd(d, ns), env) == All(d, ns, env) && Eval(ShapeOr(d, ns), env) == Any(d, ns, env)
    decreases ns
  {
    ShapeMeansTheTree(d, ns[0], env);
    if |ns| == 1 {
      assert ns == [ns[0]];
      ListOfOne(d, ns[0], env);
    } else {
      ShapesMeanTheLists(d, ns[1..], env);
      assert ShapeAnd(d, ns) == AndF(Shape(d, ns[0]), ShapeAnd(d, ns[1..]));
      assert ShapeOr(d, ns) == OrF(Shape(d, ns[0]), ShapeOr(d, ns[1..]));
    }
  }

  // --------------------------------------------------- main results

  /** A condition's text, read with SQL's precedence, denotes the tree. */
  lemma RenderingKeepsMeaning(d: Dialect, n: Node, env: seq<Token> -> Truth)
    requires IsCondition(d, n) && Valuation(env)
    ensures ReadCondition(QuoteChar(d), InlineOf(d, n)).Some?
    ensures Eval(ReadCondition(QuoteChar(d), InlineOf(d, n)).value, env) == Meaning(d, n, env)
  {
    ConditionStandsAlone(d, n);
    var ts := TokensOf(d, n);
    assert ts + [] == ts && Stops([]);
    UnitIsFormula(ts, Shape(d, n), []);
    ShapeMeansTheTree(d, n, env);
  }

  /** What the code returns: a database that reads the rendered text with its
      arguments, numbered from p, evaluates the tree. */
  lemma RenderedMeansTheTree(d: Dialect, n: Node, p: nat, env: seq<Token> -> Truth)
    requires p >= 1 && Tidy(n) && IsCondition(d, n) && Valuation(env)
    ensures
      var r := Render(d, n, p);
      var read := Bind(d, r.sql, r.args, p);
      && read.Some? && ReadCondition(QuoteChar(d), read.value).Some?
      && Eval(ReadCondition(QuoteChar(d), read.value).value, env) == Meaning(d, n, env)
  {
    QueryNumbering.RenderedTreeReadsAsInline(d, n, p);
    RenderingKeepsMeaning(d, n, env);
  }

  /** Conditions joined by a bare " AND ", as in WHERE and HAVING, denote their
      conjunction: no condition prints an OR or AND outside parentheses. */
  lemma BareAndIsConjunction(d: Dialect, ns: seq<Node>, env: seq<Token> -> Truth)
    requires ns != [] && AreConditions(d, ns) && Valuation(env)
    ensures ReadCondition(QuoteChar(d), JoinInline(InlineAll(d, ns), " AND ")).Some?
    ensures Eval(ReadCondition(QuoteChar(d), JoinInline(InlineAll(d, ns), " AND ")).value, env) == All(d, ns, env)
  {
    AllStandAlone(d, ns);
    StandingAreRead(d, ns);
    ReadsJoined(d, ns, "AND");
    assert " " + "AND" + " " == " AND ";
    var ts := JoinedTokens(d, ns, "AND");
    assert ts + [] == ts;
    AndListIsFormula(d, ns, []);
    ShapesMeanTheLists(d, ns, env);
  }

  lemma {:induction false} AllConcat(d: Dialect, a: seq<Node>, b: seq<Node>, env: seq<Token> -> Truth)
    ensures All(d, a + b, env) == And3(All(d, a, env), All(d, b, env))
  {
    if a == [] {
      assert a + b == b;
    } else {
      assert (a + b)[1..] == a[1..] + b;
      AllConcat(d, a[1..], b, env);
    }
  }

  /** Where and And add a conjunct. */
  lemma WhereAddsConjunct(d: Dialect, before: seq<Node>, condition: Node, env: seq<Token> -> Truth)
    ensures All(d, before + [condition], env) == And3(All(d, before, env), Meaning(d, condition, env))
  {
    AllConcat(d, before, [condition], env);
    ListOfOne(d, condition, env);
  }

  /** Or widens the last conjunct c to (c OR new) and leaves the others. */
  lemma OrWidensLastConjunct(d: Dialect, before: seq<Node>, last: Node, condition: Node, env: seq<Token> -> Truth)
    ensures All(d, before + [Logical("OR", [last, condition])], env) ==
            And3(All(d, before, env), Or3(Meaning(d, last, env), Meaning(d, condition, env)))
  {
    var either := Logical("OR", [last, condition]);
    WhereAddsConjunct(d, before, either, env);
    ListOfOne(d, condition, env);
    assert [last, condition][1..] == [condition];
    assert Meaning(d, either, env) == Any(d, [last, condition], env);
  }

  // --------------------------------------------------- raw fragments

  /** A raw fragment whose tokens, arguments in place, are taken whole by the
      reader of conjunctions: it holds no OR outside parentheses. */
  predicate StaysTogether(d: Dialect, sql: string, args: seq<Value>) {
    var ts := Lex(QuoteChar(d), RawInline(sql, args));
    ts.Some? && ParseAnd(ts.value).Parsed? && ParseAnd(ts.value).rest == []
  }

  /** What may stand in WHERE beside others. */
  predicate IsConjunct(d: Dialect, n: Node) {
    if n.Raw? then StaysTogether(d, n.sql, n.args) else IsCondition(d, n)
  }

  predicate AreConjuncts(d: Dialect, ns: seq<Node>) {
    forall i :: 0 <= i < |ns| ==> IsConjunct(d, ns[i])
  }

  /** A raw fragment means what its own text is read as. */
  function ConjunctMeaning(d: Dialect, n: Node, env: seq<Token> -> Truth): Truth
    requires IsConjunct(d, n)
  {
    if n.Raw? then Eval(ParseAnd(TokensOf(d, n)).f, env) else Meaning(d, n, env)
  }

  function AllConjuncts(d: Dialect, ns: seq<Node>, env: seq<Token> -> Truth): Truth
    requires AreConjuncts(d, ns)
  {
    if ns == [] then True else And3(ConjunctMeaning(d, ns[0], env), AllConjuncts(d, ns[1..], env))
  }

  lemma ConjunctParses(d: Dialect, n: Node, env: seq<Token> -> Truth) returns (f: Formula)
    requires IsConjunct(d, n) && Valuation(env)
    ensures Reads(QuoteChar(d), InlineOf(d, n), TokensOf(d, n))
    ensures ParseAnd(TokensOf(d, n)) == Parsed(f, []) && Eval(f, env) == ConjunctMeaning(d, n, env)
  {
    var ts := TokensOf(d, n);
    if n.Raw? {
      f := ParseAnd(ts).f;
    } else {
      f := Shape(d, n);
      ConditionStandsAlone(d, n);
      assert ts + [] == ts && Stops([]);
      UnitIsFormula(ts, f, []);
      ShapeMeansTheTree(d, n, env);
    }
  }

  lemma AndIsAssociative(a: Truth, b: Truth, c: Truth)
    ensures And3(And3(a, b), c) == And3(a, And3(b, c))
  {}

  lemma FirstOfBoth(a: seq<Token>, b: seq<Token>)
    requires a != []
    ensures (a + b)[0] == a[0] && (a + b)[1..] == a[1..] + b
  {}

  /** Two conjunctions joined by AND are the conjunction of both, one chain. */
  lemma {:induction false} ChainsJoin(ts: seq<Token>, f: Formula, more: seq<Token>, g: Formula, env: seq<Token> -> Truth) returns (h: Formula)
    requires ParseAnd(ts) == Parsed(f, []) && ParseAnd(more) == Parsed(g, [])
    ensures ParseAnd(ts + ([Word("AND")] + more)) == Parsed(h, []) && Eval(h, env) == And3(Eval(f, env), Eval(g, env))
    decreases |ts|
  {
    var tail := [Word("AND")] + more;
    var left := ParseNot(ts);
    NotExtends(ts, tail);
    assert tail[1..] == more;
    if left.rest == [] {
      assert left.rest + tail == tail;
      h := AndF(f, g);
    } else {
      FirstOfBoth(left.rest, tail);
      var right := ParseAnd(left.rest[1..]);
      var inner := ChainsJoin(left.rest[1..], right.f, more, g, env);
      h := AndF(left.f, inner);
      AndIsAssociative(Eval(left.f, env), Eval(right.f, env), Eval(g, env));
    }
  }

  /** The tokens are a conjunction of this truth. */
  ghost predicate Chain(ts: seq<Token>, env: seq<Token> -> Truth, truth: Truth) {
    ParseAnd(ts).Parsed? && ParseAnd(ts).rest == [] && Eval(ParseAnd(ts).f, env) == truth
  }

  lemma ChainsChain(ts: seq<Token>, a: Truth, more: seq<Token>, b: Truth, env: seq<Token> -> Truth)
    requires Chain(ts, env, a) && Chain(more, env, b)
    ensures Chain(ts + [Word("AND")] + more, env, And3(a, b))
  {
    var h := ChainsJoin(ts, ParseAnd(ts).f, more, ParseAnd(more).f, env);
    assert ts + ([Word("AND")] + more) == ts + [Word("AND")] + more;
  }

  lemma {:induction false} ConjunctsParse(d: Dialect, ns: seq<Node>, env: seq<Token> -> Truth)
    requires ns != [] && AreConjuncts(d, ns) && Valuation(env)
    ensures AllRead(d, ns) && Chain(JoinedTokens(d, ns, "AND"), env, AllConjuncts(d, ns, env))
  {
    var g := ConjunctParses(d, ns[0], env);
    if |ns| == 1 {
      assert AllConjuncts(d, ns[1..], env) == True;
    } else {
      ConjunctsParse(d, ns[1..], env);
      ChainsChain(TokensOf(d, ns[0]), ConjunctMeaning(d, ns[0], env), JoinedTokens(d, ns[1..], "AND"), AllConjuncts(d, ns[1..], env), env);
    }
  }

  /** WHERE and HAVING with raw fragments: the bare AND is their conjunction if
      every fragment stays together. */
  lemma RawStaysTogether(d: Dialect, ns: seq<Node>, env: seq<Token> -> Truth)
    requires ns != [] && AreConjuncts(d, ns) && Valuation(env)
    ensures ReadCondition(QuoteChar(d), JoinInline(InlineAll(d, ns), " AND ")).Some?
    ensures Eval(ReadCondition(QuoteChar(d), JoinInline(InlineAll(d, ns), " AND ")).value, env) == AllConjuncts(d, ns, env)
  {
    ConjunctsParse(d, ns, env);
    ReadsJoined(d, ns, "AND");
    assert " " + "AND" + " " == " AND ";
  }

  // --------------------------------------------------- fragments with an OR

  /** The disjuncts a list of tokens is read as, but the last. */
  function Heads(ts: seq<Token>, env: seq<Token> -> Truth): Truth
    decreases |ts|
  {
    var left := ParseAnd(ts);
    if !left.Parsed? || left.rest == [] then False else Or3(Eval(left.f, env), Heads(left.rest[1..], env))
  }

  function Last(ts: seq<Token>, env: seq<Token> -> Truth): Truth
    decreases |ts|
  {
    var left := ParseAnd(ts);
    if !left.Parsed? then False else if left.rest == [] then Eval(left.f, env) else Last(left.rest[1..], env)
  }

  /** All tokens are read as one condition. */
  predicate Whole(ts: seq<Token>) {
    ParseOr(ts).Parsed? && ParseOr(ts).rest == []
  }

  lemma OrIsAssociative(a: Truth, b: Truth, c: Truth)
    ensures Or3(Or3(a, b), c) == Or3(a, Or3(b, c))
  {}

  lemma {:induction false} DisjunctsMean(ts: seq<Token>, env: seq<Token> -> Truth)
    requires Whole(ts)
    ensures Eval(ParseOr(ts).f, env) == Or3(Heads(ts, env), Last(ts, env))
    decreases |ts|
  {
    var left := ParseAnd(ts);
    if left.rest != [] {
      DisjunctsMean(left.rest[1..], env);
      OrIsAssociative(Eval(left.f, env), Heads(left.rest[1..], env), Last(left.rest[1..], env));
    }
  }

  /** An AND behind takes hold of the last disjunct only. */
  lemma {:induction false} AndReachesLast(ts: seq<Token>, more: seq<Token>, truth: Truth, env: seq<Token> -> Truth)
    requires Whole(ts) && Chain(more, env, truth)
    ensures
      var all := ts + ([Word("AND")] + more);
      Whole(all) && Eval(ParseOr(all).f, env) == Or3(Heads(ts, env), And3(Last(ts, env), truth))
    decreases |ts|
  {
    var tail := [Word("AND")] + more;
    var left := ParseAnd(ts);
    if left.rest == [] {
      var h := ChainsJoin(ts, left.f, more, ParseAnd(more).f, env);
    } else {
      AndExtends(ts, tail);
      var rest := left.rest[1..];
      FirstOfBoth(left.rest, tail);
      AndReachesLast(rest, more, truth, env);
      OrIsAssociative(Eval(left.f, env), Heads(rest, env), And3(Last(rest, env), truth));
    }
  }

  /** The truth of a fragment on a row, and of WHERE fragment AND n, as the
      database reads them. */
  function FragmentTruth(d: Dialect, sql: string, args: seq<Value>, env: seq<Token> -> Truth): Truth
    requires ReadCondition(QuoteChar(d), RawInline(sql, args)).Some?
  {
    Eval(ReadCondition(QuoteChar(d), RawInline(sql, args)).value, env)
  }

  ghost predicate Conjoins(d: Dialect, sql: string, args: seq<Value>, n: Node, env: seq<Token> -> Truth)
    requires ReadCondition(QuoteChar(d), RawInline(sql, args)).Some?
  {
    var read := ReadCondition(QuoteChar(d), JoinInline(InlineAll(d, [Raw(sql, args), n]), " AND "));
    read.Some? && Eval(read.value, env) == And3(FragmentTruth(d, sql, args, env), Meaning(d, n, env))
  }

  lemma TwoConditionsText(d: Dialect, a: Node, b: Node)
    ensures JoinInline(InlineAll(d, [a, b]), " AND ") == InlineOf(d, a) + Lit(" AND ") + InlineOf(d, b)
  {
    assert [a, b][1..] == [b] && [b][1..] == [];
    assert InlineAll(d, [b]) == [InlineOf(d, b)];
    assert InlineAll(d, [a, b]) == [InlineOf(d, a)] + [InlineOf(d, b)];
  }

  lemma TwoConditionsRead(d: Dialect, a: Node, b: Node)
    requires Reads(QuoteChar(d), InlineOf(d, a), TokensOf(d, a)) && Reads(QuoteChar(d), InlineOf(d, b), TokensOf(d, b))
    ensures Reads(QuoteChar(d), JoinInline(InlineAll(d, [a, b]), " AND "), TokensOf(d, a) + ([Word("AND")] + TokensOf(d, b)))
  {
    TwoConditionsText(d, a, b);
    ReadsAnd(d, InlineOf(d, a), TokensOf(d, a), InlineOf(d, b), TokensOf(d, b));
  }

  lemma ReadsAnd(d: Dialect, t: Inline, ts: seq<Token>, u: Inline, us: seq<Token>)
    requires Reads(QuoteChar(d), t, ts) && Reads(QuoteChar(d), u, us)
    ensures Reads(QuoteChar(d), t + Lit(" AND ") + u, ts + ([Word("AND")] + us))
  {
    assert ts + ([Word("AND")] + us) == ts + [Word("AND")] + us;
    ReadsKeyword(d, t, ts, "AND", u, us);
    assert " " + "AND" + " " == " AND ";
  }

  /** A fragment before a condition, on any row: h OR l AND n. */
  lemma FragmentBefore(d: Dialect, sql: string, args: seq<Value>, n: Node, env: seq<Token> -> Truth)
    requires ReadCondition(QuoteChar(d), RawInline(sql, args)).Some? && IsCondition(d, n) && Valuation(env)
    ensures
      var ts := TokensOf(d, Raw(sql, args));
      var read := ReadCondition(QuoteChar(d), JoinInline(InlineAll(d, [Raw(sql, args), n]), " AND "));
      && FragmentTruth(d, sql, args, env) == Or3(Heads(ts, env), Last(ts, env))
      && read.Some? && Eval(read.value, env) == Or3(Heads(ts, env), And3(Last(ts, env), Meaning(d, n, env)))
  {
    var f := ConjunctParses(d, n, env);
    TwoConditionsRead(d, Raw(sql, args), n);
    FragmentParses(TokensOf(d, Raw(sql, args)), TokensOf(d, n), Meaning(d, n, env), env);
  }

  lemma FragmentParses(ts: seq<Token>, more: seq<Token>, truth: Truth, env: seq<Token> -> Truth)
    requires Whole(ts) && Chain(more, env, truth)
    ensures Eval(ParseOr(ts).f, env) == Or3(Heads(ts, env), Last(ts, env))
    ensures
      var all := ts + ([Word("AND")] + more);
      Whole(all) && Eval(ParseOr(all).f, env) == Or3(Heads(ts, env), And3(Last(ts, env), truth))
  {
    DisjunctsMean(ts, env);
    AndReachesLast(ts, more, truth, env);
  }

  /** A list of no values is never matched. */
  lemma NothingIsFalse(d: Dialect, env: seq<Token> -> Truth)
    ensures IsCondition(d, InList("a", [], false)) && Meaning(d, InList("a", [], false), env) == False
  {}

  /** Main result on raw fragments: whatever condition follows, a fragment that
      reads as a condition is a conjunct of WHERE on a row exactly when all its
      disjuncts but the last are false there. */
  lemma RawIsConjunct(d: Dialect, sql: string, args: seq<Value>, env: seq<Token> -> Truth)
    requires ReadCondition(QuoteChar(d), RawInline(sql, args)).Some? && Valuation(env)
    ensures (forall n :: IsCondition(d, n) ==> Conjoins(d, sql, args, n, env)) <==> Heads(TokensOf(d, Raw(sql, args)), env) == False
  {
    forall n | IsCondition(d, n)
      ensures Heads(TokensOf(d, Raw(sql, args)), env) == False ==> Conjoins(d, sql, args, n, env)
    {
      FragmentBefore(d, sql, args, n, env);
    }
    var nothing := InList("a", [], false);
    NothingIsFalse(d, env);
    FragmentBefore(d, sql, args, nothing, env);
    assert Conjoins(d, sql, args, nothing, env) ==> Heads(TokensOf(d, Raw(sql, args)), env) == False;
  }

  /** The first disjunct, and the others. */
  function First(ts: seq<Token>, env: seq<Token> -> Truth): Truth
    requires Whole(ts)
  {
    Eval(ParseAnd(ts).f, env)
  }

  function Tails(ts: seq<Token>, env: seq<Token> -> Truth): Truth
    requires Whole(ts)
  {
    if ParseAnd(ts).rest == [] then False else Eval(ParseOr(ParseAnd(ts).rest[1..]).f, env)
  }

  lemma AndReachesFirst(us: seq<Token>, f: Formula, ts: seq<Token>, env: seq<Token> -> Truth)
    requires Whole(ts) && Unit(us, f)
    ensures Eval(ParseOr(ts).f, env) == Or3(First(ts, env), Tails(ts, env))
    ensures
      var all := us + ([Word("AND")] + ts);
      Whole(all) && Eval(ParseOr(all).f, env) == Or3(And3(Eval(f, env), First(ts, env)), Tails(ts, env))
  {
    var tail := [Word("AND")] + ts;
    assert Stops(tail) && tail[1..] == ts;
    assert ParseNot(us + tail) == Parsed(f, tail);
    assert ParseAnd(us + tail) == Parsed(AndF(f, ParseAnd(ts).f), ParseAnd(ts).rest);
  }

  lemma ConditionIsUnit(d: Dialect, n: Node, env: seq<Token> -> Truth)
    requires IsCondition(d, n) && Valuation(env)
    ensures Reads(QuoteChar(d), InlineOf(d, n), TokensOf(d, n)) && Unit(TokensOf(d, n), Shape(d, n))
    ensures Eval(Shape(d, n), env) == Meaning(d, n, env)
  {
    ConditionStandsAlone(d, n);
    ShapeMeansTheTree(d, n, env);
  }

  /** The same for WHERE n AND fragment. */
  ghost predicate ConjoinsBehind(d: Dialect, sql: string, args: seq<Value>, n: Node, env: seq<Token> -> Truth)
    requires ReadCondition(QuoteChar(d), RawInline(sql, args)).Some?
  {
    var read := ReadCondition(QuoteChar(d), JoinInline(InlineAll(d, [n, Raw(sql, args)]), " AND "));
    read.Some? && Eval(read.value, env) == And3(Meaning(d, n, env), FragmentTruth(d, sql, args, env))
  }

  lemma FragmentBehind(d: Dialect, sql: string, args: seq<Value>, n: Node, env: seq<Token> -> Truth)
    requires ReadCondition(QuoteChar(d), RawInline(sql, args)).Some? && IsCondition(d, n) && Valuation(env)
    ensures
      var ts := TokensOf(d, Raw(sql, args));
      var read := ReadCondition(QuoteChar(d), JoinInline(InlineAll(d, [n, Raw(sql, args)]), " AND "));
      && FragmentTruth(d, sql, args, env) == Or3(First(ts, env), Tails(ts, env))
      && read.Some? && Eval(read.value, env) == Or3(And3(Meaning(d, n, env), First(ts, env)), Tails(ts, env))
  {
    ConditionIsUnit(d, n, env);
    TwoConditionsRead(d, n, Raw(sql, args));
    AndReachesFirst(TokensOf(d, n), Shape(d, n), TokensOf(d, Raw(sql, args)), env);
  }

  /** Behind other conditions it is a conjunct exactly when all its disjuncts but
      the first are false. */
  lemma RawIsConjunctBehind(d: Dialect, sql: string, args: seq<Value>, env: seq<Token> -> Truth)
    requires ReadCondition(QuoteChar(d), RawInline(sql, args)).Some? && Valuation(env)
    ensures (forall n :: IsCondition(d, n) ==> ConjoinsBehind(d, sql, args, n, env)) <==> Tails(TokensOf(d, Raw(sql, args)), env) == False
  {
    forall n | IsCondition(d, n)
      ensures Tails(TokensOf(d, Raw(sql, args)), env) == False ==> ConjoinsBehind(d, sql, args, n, env)
    {
      FragmentBehind(d, sql, args, n, env);
    }
    var nothing := InList("a", [], false);
    NothingIsFalse(d, env);
    FragmentBehind(d, sql, args, nothing, env);
    assert ConjoinsBehind(d, sql, args, nothing, env) ==> Tails(TokensOf(d, Raw(sql, args)), env) == False;
  }

  /** A fragment that stays together has no disjunct but the last. */
  lemma TogetherHasNoHeads(d: Dialect, sql: string, args: seq<Value>, env: seq<Token> -> Truth)
    requires StaysTogether(d, sql, args)
    ensures ReadCondition(QuoteChar(d), RawInline(sql, args)).Some? && Heads(TokensOf(d, Raw(sql, args)), env) == False
  {}

  lemma {:induction false} RawWithoutMarks(sql: string)
    ensures RawInline(sql, []) == Lit(sql)
  {
    if sql != "" {
      RawWithoutMarks(sql[1..]);
      assert Lit(sql) == [Chr(sql[0])] + Lit(sql[1..]);
    }
  }

  lemma OrTokensParse()
    ensures
      var ts := [Word("a")] + [Word("OR")] + [Word("b")];
      Whole(ts) && ParseAnd(ts) == Parsed(Leaf([Word("a")]), [Word("OR")] + [Word("b")]) && ParseAnd([Word("b")]) == Parsed(Leaf([Word("b")]), [])
  {
    CalmPasses([Word("a")], 0, 0);
    CalmPasses([Word("b")], 0, 0);
    var rest := [Word("OR")] + [Word("b")];
    LeafIsParsed([Word("a")], rest);
    LeafIsParsed([Word("b")], []);
    assert [Word("b")] + [] == [Word("b")] && rest[1..] == [Word("b")];
    assert [Word("a")] + [Word("OR")] + [Word("b")] == [Word("a")] + rest;
    assert ParseOr([Word("b")]) == Parsed(Leaf([Word("b")]), []);
    assert ParseAnd([Word("a")] + rest) == Parsed(Leaf([Word("a")]), rest);
    assert ParseOr([Word("a")] + rest).Parsed?;
  }

  lemma OrTokensMean(env: seq<Token> -> Truth)
    ensures Heads([Word("a")] + [Word("OR")] + [Word("b")], env) == env([Word("a")])
  {
    OrTokensParse();
    assert ([Word("OR")] + [Word("b")])[1..] == [Word("b")];
    assert Heads([Word("b")], env) == False;
  }

  lemma OrFragmentReads(d: Dialect)
    ensures Reads(QuoteChar(d), RawInline("a OR b", []), [Word("a")] + [Word("OR")] + [Word("b")])
  {
    ReadsWord(d, "a");
    ReadsTwoWords(d, "a", [Word("a")], "OR", "b");
    RawWithoutMarks("a OR b");
    assert "a" + " " + "OR" + " " + "b" == "a OR b";
  }

  lemma ReadsWhole(d: Dialect, sql: string, ts: seq<Token>)
    requires Reads(QuoteChar(d), RawInline(sql, []), ts) && Whole(ts)
    ensures ReadCondition(QuoteChar(d), RawInline(sql, [])).Some? && TokensOf(d, Raw(sql, [])) == ts
  {}

  /** The fragment "a OR b" is a conjunct on exactly the rows where a is false. */
  lemma OrFragmentEscapes(d: Dialect, env: seq<Token> -> Truth)
    requires Valuation(env)
    ensures ReadCondition(QuoteChar(d), RawInline("a OR b", [])).Some?
    ensures (forall n :: IsCondition(d, n) ==> Conjoins(d, "a OR b", [], n, env)) <==> env([Word("a")]) == False
  {
    OrTokensParse();
    OrTokensMean(env);
    OrFragmentReads(d);
    ReadsWhole(d, "a OR b", [Word("a")] + [Word("OR")] + [Word("b")]);
    RawIsConjunct(d, "a OR b", [], env);
  }
}
