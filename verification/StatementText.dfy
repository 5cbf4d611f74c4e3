/** Nested statements are closed texts: no quote or parenthesis is left open in
    what a tree of well-kept parts prints (query/select.go:276-399,
    query/subquery.go:51-112). */
module StatementTexts {
  import opened Options
  import opened SqlText
  import opened QueryTree
  import opened QueryMeaning
  import opened SqlReading

  const OPERATORS: set<string> := {"=", "!=", ">", ">=", "<", "<=", "LIKE", "NOT LIKE"}
  const JOINS: set<string> := {"INNER JOIN", "LEFT JOIN", "RIGHT JOIN", "FULL OUTER JOIN"}

  // --------------------------------------------------- balance

  /** Scanning a text: whether a name quoted by q is open, and how many
      parentheses; None at a value inside a name or a parenthesis too many. */
  function Scan(q: char, t: Inline, inside: bool, depth: nat): Option<(bool, nat)> {
    if t == [] then Some((inside, depth))
    else match t[0]
      case Val(_) => if inside then None else Scan(q, t[1..], false, depth)
      case Chr(c) =>
        if c == q then Scan(q, t[1..], !inside, depth)
        else if inside then Scan(q, t[1..], true, depth)
        else if c == '(' then Scan(q, t[1..], false, depth + 1)
        else if c == ')' then if depth == 0 then None else Scan(q, t[1..], false, depth - 1)
        else Scan(q, t[1..], false, depth)
  }

  predicate Balanced(q: char, t: Inline) {
    Scan(q, t, false, 0) == Some((false, 0))
  }

  /** Leaves exactly one parenthesis open. */
  predicate Opens(q: char, pre: string) {
    Scan(q, Lit(pre), false, 0) == Some((false, 1))
  }

  lemma {:induction false} ScanConcat(q: char, a: Inline, b: Inline, inside: bool, depth: nat)
    requires Scan(q, a, inside, depth).Some?
    ensures Scan(q, a + b, inside, depth) == Scan(q, b, Scan(q, a, inside, depth).value.0, Scan(q, a, inside, depth).value.1)
    decreases a
  {
    if a == [] {
      assert a + b == b;
    } else {
      assert (a + b)[0] == a[0] && (a + b)[1..] == a[1..] + b;
      match a[0]
      case Val(_) => ScanConcat(q, a[1..], b, inside, depth);
      case Chr(c) =>
        if c == q { ScanConcat(q, a[1..], b, !inside, depth); }
        else if inside || (c != '(' && c != ')') { ScanConcat(q, a[1..], b, inside, depth); }
        else { ScanConcat(q, a[1..], b, false, if c == '(' then depth + 1 else depth - 1); }
    }
  }

  lemma {:induction false} ScanDeeper(q: char, t: Inline, inside: bool, depth: nat, more: nat)
    requires Scan(q, t, inside, depth).Some?
    ensures Scan(q, t, inside, depth + more) == Some((Scan(q, t, inside, depth).value.0, Scan(q, t, inside, depth).value.1 + more))
    decreases t
  {
    if t != [] {
      match t[0]
      case Val(_) => ScanDeeper(q, t[1..], inside, depth, more);
      case Chr(c) =>
        if c == q { ScanDeeper(q, t[1..], !inside, depth, more); }
        else if inside || (c != '(' && c != ')') { ScanDeeper(q, t[1..], inside, depth, more); }
        else { ScanDeeper(q, t[1..], false, if c == '(' then depth + 1 else depth - 1, more); }
    }
  }

  // --------------------------------------------------- balanced texts are closed

  lemma {:induction false} NameScanned(q: char, t: Inline, depth: nat)
    requires Scan(q, t, true, depth).Some? && !Scan(q, t, true, depth).value.0
    ensures ReadName(q, t).Some? && Scan(q, ReadName(q, t).value.1, false, depth) == Scan(q, t, true, depth)
    decreases |t|
  {
    if t[0] != Chr(q) {
      NameScanned(q, t[1..], depth);
    } else if |t| > 1 && t[1] == Chr(q) {
      assert t[1..][0] == Chr(q) && t[1..][1..] == t[2..];
      NameScanned(q, t[2..], depth);
    }
  }

  lemma {:induction false} WordScanned(q: char, t: Inline, depth: nat)
    ensures Scan(q, t, false, depth) == Scan(q, t[WordRun(q, t)..], false, depth)
  {
    if t != [] && WordFrag(q, t[0]) {
      WordScanned(q, t[1..], depth);
      assert t[1..][WordRun(q, t[1..])..] == t[WordRun(q, t)..];
    }
  }

  lemma PassesFirst(token: Token, ts: seq<Token>, depth: nat, betweens: nat)
    ensures Passes([token] + ts, depth + 1, betweens) ==
            Passes(ts, if token == LParen then depth + 2 else if token == RParen then depth else depth + 1, betweens)
  {
    assert ([token] + ts)[1..] == ts;
  }

  /** The text's tokens, below the first parenthesis, end this deep. */
  ghost predicate Passed(q: char, t: Inline, depth: nat, betweens: nat, end: nat) {
    Lex(q, t).Some? && Passes(Lex(q, t).value, depth + 1, betweens) == Some((end + 1, betweens))
  }

  /** Tokens below the first parenthesis: only parentheses count there. */
  lemma {:induction false} ScannedPasses(q: char, t: Inline, depth: nat, betweens: nat)
    requires QuoteMark(q) && Scan(q, t, false, depth).Some? && !Scan(q, t, false, depth).value.0
    ensures Passed(q, t, depth, betweens, Scan(q, t, false, depth).value.1)
    decreases |t|, 1
  {
    if t != [] {
      if t[0] == Chr(q) {
        NameScanned(q, t[1..], depth);
        var rest := ReadName(q, t[1..]).value.1;
        ScannedPasses(q, rest, depth, betweens);
        PassesFirst(Name(ReadName(q, t[1..]).value.0), Lex(q, rest).value, depth, betweens);
      } else if WordFrag(q, t[0]) {
        WordScanned(q, t, depth);
        var k := WordRun(q, t);
        ScannedPasses(q, t[k..], depth, betweens);
        PassesFirst(Word(Chars(t[..k])), Lex(q, t[k..]).value, depth, betweens);
      } else {
        MarkPasses(q, t, depth, betweens);
      }
    }
  }

  lemma {:induction false} MarkPasses(q: char, t: Inline, depth: nat, betweens: nat)
    requires QuoteMark(q) && t != [] && t[0] != Chr(q) && !WordFrag(q, t[0])
    requires Scan(q, t, false, depth).Some? && !Scan(q, t, false, depth).value.0
    ensures Passed(q, t, depth, betweens, Scan(q, t, false, depth).value.1)
    decreases |t|, 0
  {
    var next := if t[0] == Chr('(') then depth + 1 else if t[0] == Chr(')') then depth - 1 else depth;
    ScannedPasses(q, t[1..], next, betweens);
    var rest := Lex(q, t[1..]).value;
    if t[0].Val? {
      PassesFirst(Bound(t[0].value), rest, depth, betweens);
    } else if t[0].c != ' ' {
      PassesFirst(if t[0].c == '(' then LParen else if t[0].c == ')' then RParen else Comma, rest, depth, betweens);
    }
  }

  // --------------------------------------------------- pieces

  predicate AllBalanced(q: char, ts: seq<Inline>) {
    forall i :: 0 <= i < |ts| ==> Balanced(q, ts[i])
  }

  lemma BothBalanced(q: char, a: Inline, b: Inline)
    requires Balanced(q, a) && Balanced(q, b)
    ensures Balanced(q, a + b)
  {
    ScanConcat(q, a, b, false, 0);
  }

  lemma BothTexts(q: char, a: string, b: string)
    requires Balanced(q, Lit(a)) && Balanced(q, Lit(b))
    ensures Balanced(q, Lit(a + b))
  {
    BothBalanced(q, Lit(a), Lit(b));
    LitConcat(a, b);
  }

  /** No quote and no parenthesis. */
  predicate Unmarked(s: string) {
    forall i :: 0 <= i < |s| ==> s[i] != '(' && s[i] != ')' && s[i] != '"' && s[i] != '`'
  }

  lemma {:induction false} UnmarkedIsBalanced(d: Dialect, s: string)
    requires Unmarked(s)
    ensures Balanced(QuoteChar(d), Lit(s))
  {
    if s != "" {
      assert Lit(s)[1..] == Lit(s[1..]);
      UnmarkedIsBalanced(d, s[1..]);
    }
  }

  lemma ValueIsBalanced(q: char, v: Value)
    ensures Balanced(q, [Val(v)])
  {
    assert [Val(v)][1..] == [];
  }

  lemma {:induction false} DoubledStaysInside(q: char, name: string)
    ensures Scan(q, Lit(Doubled(q, name)), true, 0) == Some((true, 0))
  {
    if name != "" {
      DoubledStaysInside(q, name[1..]);
      var rest := Doubled(q, name[1..]);
      if name[0] == q {
        assert Lit(Doubled(q, name)) == [Chr(q), Chr(q)] + Lit(rest);
        assert Lit(Doubled(q, name))[1..][1..] == Lit(rest);
      } else {
        assert Lit(Doubled(q, name))[1..] == Lit(rest);
      }
    }
  }

  lemma QuoteIsBalanced(d: Dialect, name: string)
    ensures Balanced(QuoteChar(d), Lit(Quote(d, name)))
  {
    var q := QuoteChar(d);
    var inner := Lit(Doubled(q, name));
    DoubledStaysInside(q, name);
    ScanConcat(q, inner, [Chr(q)], true, 0);
    assert [Chr(q)][1..] == [];
    assert Lit(Quote(d, name)) == [Chr(q)] + (inner + [Chr(q)]);
    assert Lit(Quote(d, name))[1..] == inner + [Chr(q)];
  }

  lemma {:induction false} JoinIsBalanced(q: char, parts: seq<string>, sep: string)
    requires (forall i :: 0 <= i < |parts| ==> Balanced(q, Lit(parts[i]))) && Balanced(q, Lit(sep))
    ensures Balanced(q, Lit(Join(parts, sep)))
    decreases parts
  {
    if |parts| == 0 {
      assert Lit("") == [];
    } else if |parts| > 1 {
      JoinIsBalanced(q, parts[1..], sep);
      BothTexts(q, parts[0], sep);
      BothTexts(q, parts[0] + sep, Join(parts[1..], sep));
    }
  }

  lemma {:induction false} JoinInlineIsBalanced(q: char, ts: seq<Inline>, sep: string)
    requires AllBalanced(q, ts) && Balanced(q, Lit(sep))
    ensures Balanced(q, JoinInline(ts, sep))
    decreases ts
  {
    if |ts| > 1 {
      JoinInlineIsBalanced(q, ts[1..], sep);
      BothBalanced(q, ts[0], Lit(sep));
      BothBalanced(q, ts[0] + Lit(sep), JoinInline(ts[1..], sep));
    }
  }

  lemma WrapIsBalanced(q: char, pre: string, t: Inline, post: string)
    requires Balanced(q, Lit(pre)) && Balanced(q, t) && Balanced(q, Lit(post))
    ensures Balanced(q, WrapInline(pre, t, post))
  {
    BothBalanced(q, Lit(pre), t);
    BothBalanced(q, Lit(pre) + t, Lit(post));
  }

  lemma EnclosedIsBalanced(q: char, pre: string, t: Inline)
    requires QuoteMark(q) && Opens(q, pre) && Balanced(q, t)
    ensures Balanced(q, WrapInline(pre, t, ")"))
  {
    ScanConcat(q, Lit(pre), t, false, 0);
    ScanDeeper(q, t, false, 0, 1);
    ScanConcat(q, Lit(pre) + t, Lit(")"), false, 0);
    assert Lit(")")[1..] == [];
  }

  lemma OpensAfter(d: Dialect, a: string, b: string)
    requires Balanced(QuoteChar(d), Lit(a)) && Unmarked(b)
    ensures Opens(QuoteChar(d), a + b + "(")
  {
    var q := QuoteChar(d);
    UnmarkedIsBalanced(d, b);
    BothTexts(q, a, b);
    ScanConcat(q, Lit(a + b), Lit("("), false, 0);
    LitConcat(a + b, "(");
    assert Lit("(")[1..] == [];
  }

  lemma SectionIsBalanced(d: Dialect, keyword: string, ts: seq<Inline>, sep: string)
    requires Unmarked(keyword) && AllBalanced(QuoteChar(d), ts) && Unmarked(sep)
    ensures AllBalanced(QuoteChar(d), SectionInline(keyword, ts, sep))
  {
    UnmarkedIsBalanced(d, keyword);
    UnmarkedIsBalanced(d, sep);
    UnmarkedIsBalanced(d, "");
    JoinInlineIsBalanced(QuoteChar(d), ts, sep);
    WrapIsBalanced(QuoteChar(d), keyword, JoinInline(ts, sep), "");
  }

  // --------------------------------------------------- well-kept parts

  /** Names with a parenthesis are expressions and printed as they are. */
  predicate NameFits(d: Dialect, name: string) {
    '(' in name ==> Balanced(QuoteChar(d), Lit(name))
  }

  predicate NamesFit(d: Dialect, names: seq<string>) {
    forall i :: 0 <= i < |names| ==> NameFits(d, names[i])
  }

  /** Texts that come from the caller as they are, raw fragments and names that
      are expressions, are balanced; operators and joins are those the builders
      offer; nested statements build and are themselves well kept. */
  predicate WellKept(d: Dialect, n: Node)
    decreases n
  {
    match n
    case Invalid(_) => true
    case Comparison(column, operator, _) => NameFits(d, column) && operator in OPERATORS
    case ILike(column, _) => NameFits(d, column)
    case NullTest(column, _) => NameFits(d, column)
    case InList(column, _, _) => NameFits(d, column)
    case Between(column, _, _) => NameFits(d, column)
    case Logical(operator, conditions) => operator in {"AND", "OR"} && AllWellKept(d, conditions)
    case Not(condition) => WellKept(d, condition)
    case Raw(sql, args) => Balanced(QuoteChar(d), RawInline(sql, args))
    case ColumnComparison(col1, operator, col2) => NameFits(d, col1) && operator in OPERATORS && NameFits(d, col2)
    case InSubquery(_, subquery, _) => IsStatement(d, subquery)
    case Exists(subquery, _) => IsStatement(d, subquery)
    case Column(_) => true
    case Literal(_) => true
    case Keyword(text) => Balanced(QuoteChar(d), Lit(text))
    case Call(open, operands) => Opens(QuoteChar(d), open) && AllWellKept(d, operands)
    case Alias(expr, _) => WellKept(d, expr)
    case Case(operand, whens, otherwise) =>
      && (operand.Some? ==> WellKept(d, operand.value)) && AllWellKept(d, whens)
      && (otherwise.Some? ==> WellKept(d, otherwise.value))
    case Over(call, window) => WellKept(d, call) && WellKept(d, window)
    case When(test, result) => WellKept(d, test) && WellKept(d, result)
    case Window(partitionBy, orderBy, frame) =>
      AllWellKept(d, partitionBy) && AllWellKept(d, orderBy) && Balanced(QuoteChar(d), Lit(frame))
    case Ordered(expr, _) => WellKept(d, expr)
    case JoinOn(kind, _, _, on) => kind in JOINS && WellKept(d, on)
    case CrossJoin(_, _) => true
  }

  predicate AllWellKept(d: Dialect, ns: seq<Node>)
    decreases ns
  {
    ns == [] || (WellKept(d, ns[0]) && AllWellKept(d, ns[1..]))
  }

  predicate IsStatement(d: Dialect, s: Select)
    decreases s
  {
    && SelectError(s).None?
    && NamesFit(d, s.columns) && AllWellKept(d, s.columnExprs) && AllWellKept(d, s.joins) && AllWellKept(d, s.conditions)
    && NamesFit(d, s.groupBy) && AllWellKept(d, s.groupByExprs) && AllWellKept(d, s.having)
    && (forall i :: 0 <= i < |s.orderBy| ==> NameFits(d, s.orderBy[i].column)) && AllWellKept(d, s.orderByExprs)
  }

  // --------------------------------------------------- names and leaves

  lemma QualifiedIsBalanced(d: Dialect, name: string)
    requires NameFits(d, name)
    ensures Balanced(QuoteChar(d), Lit(QuoteQualified(d, name)))
  {
    if '(' !in name {
      if '.' in name {
        var parts := SplitAtDots(name);
        forall i | 0 <= i < |parts| ensures Balanced(QuoteChar(d), Lit(QuoteAll(d, parts)[i])) { QuoteIsBalanced(d, parts[i]); }
        UnmarkedIsBalanced(d, ".");
        JoinIsBalanced(QuoteChar(d), QuoteAll(d, parts), ".");
      } else {
        QuoteIsBalanced(d, name);
      }
    }
  }

  lemma NameThen(d: Dialect, name: string, rest: string)
    requires NameFits(d, name) && Unmarked(rest)
    ensures Balanced(QuoteChar(d), Lit(QuoteQualified(d, name) + rest))
  {
    QualifiedIsBalanced(d, name);
    UnmarkedIsBalanced(d, rest);
    BothTexts(QuoteChar(d), QuoteQualified(d, name), rest);
  }

  lemma ComparedName(d: Dialect, name: string, operator: string)
    requires NameFits(d, name) && operator in OPERATORS
    ensures Balanced(QuoteChar(d), Lit(QuoteQualified(d, name) + " " + operator + " "))
  {
    NameThen(d, name, " " + operator + " ");
    assert QuoteQualified(d, name) + (" " + operator + " ") == QuoteQualified(d, name) + " " + operator + " ";
  }

  lemma ComparisonIsBalanced(d: Dialect, n: Node)
    requires WellKept(d, n) && (n.Comparison? || n.ColumnComparison?)
    ensures Balanced(QuoteChar(d), InlineOf(d, n))
  {
    var q := QuoteChar(d);
    match n
    case Comparison(column, operator, value) =>
      ComparedName(d, column, operator);
      ValueIsBalanced(q, value);
      BothBalanced(q, Lit(QuoteQualified(d, column) + " " + operator + " "), [Val(value)]);
    case ColumnComparison(col1, operator, col2) =>
      ComparedName(d, col1, operator);
      QualifiedIsBalanced(d, col2);
      BothTexts(q, QuoteQualified(d, col1) + " " + operator + " ", QuoteQualified(d, col2));
  }

  lemma LoweredIsBalanced(d: Dialect, name: string, v: Value)
    requires NameFits(d, name)
    ensures Balanced(QuoteChar(d), WrapInline("LOWER(" + QuoteQualified(d, name) + ") LIKE LOWER(", [Val(v)], ")"))
  {
    var q, col := QuoteChar(d), QuoteQualified(d, name);
    UnmarkedIsBalanced(d, "");
    OpensAfter(d, "", "LOWER");
    assert "" + "LOWER" + "(" == "LOWER(";
    QualifiedIsBalanced(d, name);
    EnclosedIsBalanced(q, "LOWER(", Lit(col));
    LitConcat("LOWER(", col);
    LitConcat("LOWER(" + col, ")");
    OpensAfter(d, "LOWER(" + col + ")", " LIKE LOWER");
    assert "LOWER(" + col + ")" + " LIKE LOWER" + "(" == "LOWER(" + col + ") LIKE LOWER(";
    ValueIsBalanced(q, v);
    EnclosedIsBalanced(q, "LOWER(" + col + ") LIKE LOWER(", [Val(v)]);
  }

  lemma ILikeIsBalanced(d: Dialect, column: string, pattern: string)
    requires NameFits(d, column)
    ensures Balanced(QuoteChar(d), InlineOf(d, ILike(column, pattern)))
  {
    if d.Postgres? {
      NameThen(d, column, " ILIKE ");
      ValueIsBalanced(QuoteChar(d), StringValue(pattern));
      BothBalanced(QuoteChar(d), Lit(QuoteQualified(d, column) + " ILIKE "), [Val(StringValue(pattern))]);
    } else {
      LoweredIsBalanced(d, column, StringValue(pattern));
    }
  }

  lemma ValuesAreBalanced(d: Dialect, values: seq<Value>, sep: string)
    requires Unmarked(sep)
    ensures Balanced(QuoteChar(d), JoinInline(ValAll(values), sep))
  {
    var q := QuoteChar(d);
    forall i | 0 <= i < |values| ensures Balanced(q, ValAll(values)[i]) { ValueIsBalanced(q, values[i]); }
    UnmarkedIsBalanced(d, sep);
    JoinInlineIsBalanced(q, ValAll(values), sep);
  }

  lemma InOpens(d: Dialect, text: string, negate: bool)
    requires Balanced(QuoteChar(d), Lit(text))
    ensures Opens(QuoteChar(d), text + InOpen(negate))
  {
    var words := if negate then " NOT IN " else " IN ";
    OpensAfter(d, text, words);
    assert text + words + "(" == text + InOpen(negate);
  }

  lemma InListIsBalanced(d: Dialect, column: string, values: seq<Value>, notIn: bool)
    requires NameFits(d, column)
    ensures Balanced(QuoteChar(d), InlineOf(d, InList(column, values, notIn)))
  {
    if values == [] {
      UnmarkedIsBalanced(d, if notIn then "1=1" else "1=0");
    } else {
      QualifiedIsBalanced(d, column);
      InOpens(d, QuoteQualified(d, column), notIn);
      ValuesAreBalanced(d, values, ", ");
      EnclosedIsBalanced(QuoteChar(d), QuoteQualified(d, column) + InOpen(notIn), JoinInline(ValAll(values), ", "));
    }
  }

  lemma BetweenIsBalanced(d: Dialect, column: string, start: Value, end: Value)
    requires NameFits(d, column)
    ensures Balanced(QuoteChar(d), InlineOf(d, Between(column, start, end)))
  {
    NameThen(d, column, " BETWEEN ");
    ValuesAreBalanced(d, [start, end], " AND ");
    UnmarkedIsBalanced(d, "");
    WrapIsBalanced(QuoteChar(d), QuoteQualified(d, column) + " BETWEEN ", JoinInline(ValAll([start, end]), " AND "), "");
  }

  lemma ExistsOpens(d: Dialect, negate: bool)
    ensures Opens(QuoteChar(d), ExistsOpen(negate))
  {
    UnmarkedIsBalanced(d, "");
    var words := if negate then "NOT EXISTS " else "EXISTS ";
    OpensAfter(d, "", words);
    assert "" + words + "(" == ExistsOpen(negate);
  }

  lemma SubqueryIsBalanced(d: Dialect, n: Node, t: Inline)
    requires WellKept(d, n) && Balanced(QuoteChar(d), t)
    requires (n.InSubquery? || n.Exists?) && t == InlineSelect(d, n.subquery)
    ensures Balanced(QuoteChar(d), InlineOf(d, n))
  {
    match n
    case InSubquery(column, subquery, negate) =>
      QuoteIsBalanced(d, column);
      InOpens(d, Quote(d, column), negate);
      EnclosedIsBalanced(QuoteChar(d), Quote(d, column) + InOpen(negate), t);
    case Exists(subquery, negate) =>
      ExistsOpens(d, negate);
      EnclosedIsBalanced(QuoteChar(d), ExistsOpen(negate), t);
  }

  lemma TableIsBalanced(d: Dialect, table: string, alias: string)
    ensures Balanced(QuoteChar(d), Lit(TableText(d, table, alias)))
  {
    var q := QuoteChar(d);
    QuoteIsBalanced(d, table);
    UnmarkedIsBalanced(d, "");
    if alias != "" {
      QuoteIsBalanced(d, alias);
      UnmarkedIsBalanced(d, " AS ");
      BothTexts(q, " AS ", Quote(d, alias));
    }
    BothTexts(q, Quote(d, table), if alias != "" then " AS " + Quote(d, alias) else "");
  }

  lemma JoinTextIsBalanced(d: Dialect, kind: string, table: string, alias: string)
    requires kind in JOINS
    ensures Balanced(QuoteChar(d), Lit(kind + " " + TableText(d, table, alias) + " ON "))
  {
    var q := QuoteChar(d);
    UnmarkedIsBalanced(d, kind + " ");
    TableIsBalanced(d, table, alias);
    BothTexts(q, kind + " ", TableText(d, table, alias));
    UnmarkedIsBalanced(d, " ON ");
    BothTexts(q, kind + " " + TableText(d, table, alias), " ON ");
  }

  // --------------------------------------------------- composite nodes

  lemma LogicalIsBalanced(d: Dialect, operator: string, ts: seq<Inline>)
    requires operator in {"AND", "OR"} && AllBalanced(QuoteChar(d), ts)
    ensures Balanced(QuoteChar(d), WrapInline("(", JoinInline(ts, " " + operator + " "), ")"))
  {
    UnmarkedIsBalanced(d, "");
    OpensAfter(d, "", "");
    assert "" + "" + "(" == "(";
    UnmarkedIsBalanced(d, " " + operator + " ");
    JoinInlineIsBalanced(QuoteChar(d), ts, " " + operator + " ");
    EnclosedIsBalanced(QuoteChar(d), "(", JoinInline(ts, " " + operator + " "));
  }

  lemma NotIsBalanced(d: Dialect, t: Inline)
    requires Balanced(QuoteChar(d), t)
    ensures Balanced(QuoteChar(d), WrapInline("NOT (", t, ")"))
  {
    UnmarkedIsBalanced(d, "");
    OpensAfter(d, "", "NOT ");
    assert "" + "NOT " + "(" == "NOT (";
    EnclosedIsBalanced(QuoteChar(d), "NOT (", t);
  }

  lemma CallIsBalanced(d: Dialect, open: string, ts: seq<Inline>)
    requires Opens(QuoteChar(d), open) && AllBalanced(QuoteChar(d), ts)
    ensures Balanced(QuoteChar(d), WrapInline(open, JoinInline(ts, ", "), ")"))
  {
    UnmarkedIsBalanced(d, ", ");
    JoinInlineIsBalanced(QuoteChar(d), ts, ", ");
    EnclosedIsBalanced(QuoteChar(d), open, JoinInline(ts, ", "));
  }

  lemma FramedIsBalanced(d: Dialect, pre: string, t: Inline, post: string)
    requires Unmarked(pre) && Balanced(QuoteChar(d), t) && Unmarked(post)
    ensures Balanced(QuoteChar(d), WrapInline(pre, t, post))
  {
    UnmarkedIsBalanced(d, pre);
    UnmarkedIsBalanced(d, post);
    WrapIsBalanced(QuoteChar(d), pre, t, post);
  }

  lemma AliasIsBalanced(d: Dialect, t: Inline, alias: string)
    requires Balanced(QuoteChar(d), t)
    ensures Balanced(QuoteChar(d), WrapInline("", t, " AS " + Quote(d, alias)))
  {
    UnmarkedIsBalanced(d, "");
    UnmarkedIsBalanced(d, " AS ");
    QuoteIsBalanced(d, alias);
    BothTexts(QuoteChar(d), " AS ", Quote(d, alias));
    WrapIsBalanced(QuoteChar(d), "", t, " AS " + Quote(d, alias));
  }

  lemma PairIsBalanced(d: Dialect, a: Inline, sep: string, b: Inline)
    requires Balanced(QuoteChar(d), a) && Unmarked(sep) && Balanced(QuoteChar(d), b)
    ensures Balanced(QuoteChar(d), JoinInline([a] + [b], sep))
  {
    UnmarkedIsBalanced(d, sep);
    JoinInlineIsBalanced(QuoteChar(d), [a] + [b], sep);
  }

  lemma OverIsBalanced(d: Dialect, a: Inline, b: Inline)
    requires Balanced(QuoteChar(d), a) && Balanced(QuoteChar(d), b)
    ensures Balanced(QuoteChar(d), WrapInline("", JoinInline([a] + [b], " OVER ("), ")"))
  {
    var q := QuoteChar(d);
    UnmarkedIsBalanced(d, "");
    OpensAfter(d, "", " OVER ");
    assert "" + " OVER " + "(" == " OVER (";
    EnclosedIsBalanced(q, " OVER (", b);
    BothBalanced(q, a, WrapInline(" OVER (", b, ")"));
    assert ([a] + [b])[1..] == [b] && Lit("") == [];
    OverText(a, Lit(" OVER ("), b, Lit(")"));
    assert JoinInline([a] + [b], " OVER (") == a + Lit(" OVER (") + b;
  }

  lemma OverText(a: Inline, open: Inline, b: Inline, close: Inline)
    ensures [] + (a + open + b) + close == a + (open + b + close)
  {}

  lemma CaseIsBalanced(d: Dialect, head: Inline, whens: seq<Inline>, tail: seq<Inline>)
    requires Balanced(QuoteChar(d), head) && AllBalanced(QuoteChar(d), whens) && AllBalanced(QuoteChar(d), tail)
    ensures Balanced(QuoteChar(d), JoinInline([head] + whens + tail + LitAll(["END"]), " "))
  {
    UnmarkedIsBalanced(d, "END");
    UnmarkedIsBalanced(d, " ");
    JoinInlineIsBalanced(QuoteChar(d), [head] + whens + tail + LitAll(["END"]), " ");
  }

  lemma WindowIsBalanced(d: Dialect, parts: seq<Inline>, order: seq<Inline>, frame: string)
    requires AllBalanced(QuoteChar(d), parts) && AllBalanced(QuoteChar(d), order) && Balanced(QuoteChar(d), Lit(frame))
    ensures Balanced(QuoteChar(d), JoinInline(SectionInline("PARTITION BY ", parts, ", ") + SectionInline("ORDER BY ", order, ", ")
                                              + LitAll(if frame == "" then [] else [frame]), " "))
  {
    SectionIsBalanced(d, "PARTITION BY ", parts, ", ");
    SectionIsBalanced(d, "ORDER BY ", order, ", ");
    UnmarkedIsBalanced(d, " ");
    JoinInlineIsBalanced(QuoteChar(d), SectionInline("PARTITION BY ", parts, ", ") + SectionInline("ORDER BY ", order, ", ")
                                       + LitAll(if frame == "" then [] else [frame]), " ");
  }

  // --------------------------------------------------- whole trees

  lemma {:induction false} NodeIsBalanced(d: Dialect, n: Node)
    requires WellKept(d, n)
    ensures Balanced(QuoteChar(d), InlineOf(d, n))
    decreases n, 1
  {
    match n
    case Invalid(_) =>
    case Comparison(_, _, _) => ComparisonIsBalanced(d, n);
    case ColumnComparison(_, _, _) => ComparisonIsBalanced(d, n);
    case ILike(column, pattern) => ILikeIsBalanced(d, column, pattern);
    case NullTest(column, isNull) => NameThen(d, column, if isNull then " IS NULL" else " IS NOT NULL");
    case InList(column, values, notIn) => InListIsBalanced(d, column, values, notIn);
    case Between(column, start, end) => BetweenIsBalanced(d, column, start, end);
    case Logical(_, _) => LogicalNodeIsBalanced(d, n);
    case Raw(_, _) =>
    case InSubquery(_, subquery, _) =>
      StatementIsBalanced(d, subquery);
      SubqueryIsBalanced(d, n, InlineSelect(d, subquery));
    case Exists(subquery, _) =>
      StatementIsBalanced(d, subquery);
      SubqueryIsBalanced(d, n, InlineSelect(d, subquery));
    case Column(name) => QuoteIsBalanced(d, name);
    case Literal(value) => ValueIsBalanced(QuoteChar(d), value);
    case Keyword(_) =>
    case Case(_, _, _) => CaseNodeIsBalanced(d, n);
    case Over(_, _) => PairNodeIsBalanced(d, n);
    case When(_, _) => PairNodeIsBalanced(d, n);
    case Window(_, _, _) => ListNodeIsBalanced(d, n);
    case Call(_, _) => ListNodeIsBalanced(d, n);
    case _ => WrapperIsBalanced(d, n);
  }

  lemma {:induction false} LogicalNodeIsBalanced(d: Dialect, n: Node)
    requires WellKept(d, n) && n.Logical?
    ensures Balanced(QuoteChar(d), InlineOf(d, n))
    decreases n, 0
  {
    if |n.conditions| == 0 {
      UnmarkedIsBalanced(d, "1=1");
    } else if |n.conditions| == 1 {
      NodeIsBalanced(d, n.conditions[0]);
    } else {
      AllAreBalanced(d, n.conditions);
      LogicalIsBalanced(d, n.operator, InlineAll(d, n.conditions));
    }
  }

  lemma {:induction false} WrapperIsBalanced(d: Dialect, n: Node)
    requires WellKept(d, n) && (n.Not? || n.Alias? || n.Ordered? || n.JoinOn? || n.CrossJoin?)
    ensures Balanced(QuoteChar(d), InlineOf(d, n))
    decreases n, 0
  {
    match n
    case Not(condition) =>
      NodeIsBalanced(d, condition);
      NotIsBalanced(d, InlineOf(d, condition));
    case Alias(expr, alias) =>
      NodeIsBalanced(d, expr);
      AliasIsBalanced(d, InlineOf(d, expr), alias);
    case Ordered(expr, descending) =>
      NodeIsBalanced(d, expr);
      FramedIsBalanced(d, "", InlineOf(d, expr), Direction(descending));
    case JoinOn(kind, table, alias, on) =>
      NodeIsBalanced(d, on);
      JoinTextIsBalanced(d, kind, table, alias);
      UnmarkedIsBalanced(d, "");
      WrapIsBalanced(QuoteChar(d), kind + " " + TableText(d, table, alias) + " ON ", InlineOf(d, on), "");
    case CrossJoin(table, alias) =>
      UnmarkedIsBalanced(d, "CROSS JOIN ");
      TableIsBalanced(d, table, alias);
      BothTexts(QuoteChar(d), "CROSS JOIN ", TableText(d, table, alias));
  }

  lemma {:induction false} PairNodeIsBalanced(d: Dialect, n: Node)
    requires WellKept(d, n) && (n.Over? || n.When?)
    ensures Balanced(QuoteChar(d), InlineOf(d, n))
    decreases n, 0
  {
    match n
    case Over(call, window) =>
      NodeIsBalanced(d, call);
      NodeIsBalanced(d, window);
      OverIsBalanced(d, InlineOf(d, call), InlineOf(d, window));
    case When(test, result) =>
      NodeIsBalanced(d, test);
      NodeIsBalanced(d, result);
      PairIsBalanced(d, InlineOf(d, test), " THEN ", InlineOf(d, result));
      FramedIsBalanced(d, "WHEN ", JoinInline([InlineOf(d, test)] + [InlineOf(d, result)], " THEN "), "");
  }

  lemma {:induction false} ListNodeIsBalanced(d: Dialect, n: Node)
    requires WellKept(d, n) && (n.Call? || n.Window?)
    ensures Balanced(QuoteChar(d), InlineOf(d, n))
    decreases n, 0
  {
    match n
    case Call(open, operands) =>
      AllAreBalanced(d, operands);
      CallIsBalanced(d, open, InlineAll(d, operands));
    case Window(partitionBy, orderBy, frame) =>
      AllAreBalanced(d, partitionBy);
      AllAreBalanced(d, orderBy);
      WindowIsBalanced(d, InlineAll(d, partitionBy), InlineAll(d, orderBy), frame);
  }

  lemma {:induction false} CaseNodeIsBalanced(d: Dialect, n: Node)
    requires WellKept(d, n) && n.Case?
    ensures Balanced(QuoteChar(d), InlineOf(d, n))
    decreases n, 0
  {
    var head := if n.operand.Some? then WrapInline("CASE ", InlineOf(d, n.operand.value), "") else Lit("CASE");
    var tail := if n.otherwise.Some? then [WrapInline("ELSE ", InlineOf(d, n.otherwise.value), "")] else [];
    if n.operand.Some? {
      NodeIsBalanced(d, n.operand.value);
      FramedIsBalanced(d, "CASE ", InlineOf(d, n.operand.value), "");
    } else {
      UnmarkedIsBalanced(d, "CASE");
    }
    if n.otherwise.Some? {
      NodeIsBalanced(d, n.otherwise.value);
      FramedIsBalanced(d, "ELSE ", InlineOf(d, n.otherwise.value), "");
    }
    AllAreBalanced(d, n.whens);
    CaseIsBalanced(d, head, InlineAll(d, n.whens), tail);
  }

  lemma {:induction false} AllAreBalanced(d: Dialect, ns: seq<Node>)
    requires AllWellKept(d, ns)
    ensures AllBalanced(QuoteChar(d), InlineAll(d, ns))
    decreases ns, 1
  {
    if ns != [] {
      NodeIsBalanced(d, ns[0]);
      AllAreBalanced(d, ns[1..]);
    }
  }

  // --------------------------------------------------- statements

  lemma TextsAreBalanced(d: Dialect, parts: seq<string>)
    requires forall i :: 0 <= i < |parts| ==> Balanced(QuoteChar(d), Lit(parts[i]))
    ensures AllBalanced(QuoteChar(d), LitAll(parts))
  {}

  lemma QualifiedTextsAreBalanced(d: Dialect, names: seq<string>)
    requires NamesFit(d, names)
    ensures AllBalanced(QuoteChar(d), LitAll(QualifiedTexts(d, names)))
  {
    forall i | 0 <= i < |names| ensures Balanced(QuoteChar(d), Lit(QualifiedTexts(d, names)[i])) { QualifiedIsBalanced(d, names[i]); }
    TextsAreBalanced(d, QualifiedTexts(d, names));
  }

  lemma OrderTextsAreBalanced(d: Dialect, order: seq<OrderColumn>)
    requires forall i :: 0 <= i < |order| ==> NameFits(d, order[i].column)
    ensures AllBalanced(QuoteChar(d), LitAll(OrderTexts(d, order)))
  {
    forall i | 0 <= i < |order| ensures Balanced(QuoteChar(d), Lit(OrderTexts(d, order)[i])) {
      NameThen(d, order[i].column, Direction(order[i].descending));
    }
    TextsAreBalanced(d, OrderTexts(d, order));
  }

  lemma FromTextsAreBalanced(d: Dialect, s: Select)
    ensures AllBalanced(QuoteChar(d), LitAll(FromTexts(d, s)))
  {
    UnmarkedIsBalanced(d, "FROM ");
    TableIsBalanced(d, s.table, s.tableAlias);
    BothTexts(QuoteChar(d), "FROM ", TableText(d, s.table, s.tableAlias));
    TextsAreBalanced(d, FromTexts(d, s));
  }

  lemma DecimalIsUnmarked(n: nat)
    ensures Unmarked(Decimal(n))
  {
    assert AllDigits(Decimal(n));
  }

  lemma LimitTextsAreBalanced(d: Dialect, s: Select)
    ensures AllBalanced(QuoteChar(d), LitAll(LimitTexts(s)))
  {
    if s.limit > 0 { DecimalIsUnmarked(s.limit); }
    if s.offset > 0 { DecimalIsUnmarked(s.offset); }
    assert Unmarked(LimitOffset(s.limit, s.offset));
    UnmarkedIsBalanced(d, LimitOffset(s.limit, s.offset));
    TextsAreBalanced(d, LimitTexts(s));
  }

  lemma HeadIsBalanced(d: Dialect, s: Select, selected: seq<Inline>)
    requires AllBalanced(QuoteChar(d), selected)
    ensures AllBalanced(QuoteChar(d), LitAll([SelectKeyword(s) + " *"]))
    ensures AllBalanced(QuoteChar(d), SectionInline(SelectKeyword(s) + " ", selected, ", "))
  {
    assert Unmarked(SelectKeyword(s) + " *") && Unmarked(SelectKeyword(s) + " ");
    UnmarkedIsBalanced(d, SelectKeyword(s) + " *");
    TextsAreBalanced(d, [SelectKeyword(s) + " *"]);
    SectionIsBalanced(d, SelectKeyword(s) + " ", selected, ", ");
  }

  lemma ListsBalanced(q: char, a: seq<Inline>, b: seq<Inline>)
    requires AllBalanced(q, a) && AllBalanced(q, b)
    ensures AllBalanced(q, a + b)
  {}

  lemma EightListsBalanced(q: char, head: seq<Inline>, from: seq<Inline>, joins: seq<Inline>, wheres: seq<Inline>,
                           groups: seq<Inline>, having: seq<Inline>, order: seq<Inline>, limit: seq<Inline>)
    requires AllBalanced(q, head) && AllBalanced(q, from) && AllBalanced(q, joins) && AllBalanced(q, wheres)
    requires AllBalanced(q, groups) && AllBalanced(q, having) && AllBalanced(q, order) && AllBalanced(q, limit)
    ensures AllBalanced(q, head + from + joins + wheres + groups + having + order + limit)
  {
    ListsBalanced(q, head, from);
    ListsBalanced(q, head + from, joins);
    ListsBalanced(q, head + from + joins, wheres);
    ListsBalanced(q, head + from + joins + wheres, groups);
    ListsBalanced(q, head + from + joins + wheres + groups, having);
    ListsBalanced(q, head + from + joins + wheres + groups + having, order);
    ListsBalanced(q, head + from + joins + wheres + groups + having + order, limit);
  }

  /** Names in print, then expressions, as one clause. */
  lemma ClauseIsBalanced(d: Dialect, keyword: string, names: seq<Inline>, ts: seq<Inline>)
    requires Unmarked(keyword) && AllBalanced(QuoteChar(d), names) && AllBalanced(QuoteChar(d), ts)
    ensures AllBalanced(QuoteChar(d), SectionInline(keyword, names + ts, ", "))
  {
    ListsBalanced(QuoteChar(d), names, ts);
    SectionIsBalanced(d, keyword, names + ts, ", ");
  }

  function HeadInline(d: Dialect, s: Select, columns: seq<Inline>): seq<Inline> {
    var selected := LitAll(QualifiedTexts(d, s.columns)) + columns;
    if selected == [] then LitAll([SelectKeyword(s) + " *"]) else SectionInline(SelectKeyword(s) + " ", selected, ", ")
  }

  lemma HeadInlineIsBalanced(d: Dialect, s: Select, columns: seq<Inline>)
    requires NamesFit(d, s.columns) && AllBalanced(QuoteChar(d), columns)
    ensures AllBalanced(QuoteChar(d), HeadInline(d, s, columns))
  {
    QualifiedTextsAreBalanced(d, s.columns);
    ListsBalanced(QuoteChar(d), LitAll(QualifiedTexts(d, s.columns)), columns);
    HeadIsBalanced(d, s, LitAll(QualifiedTexts(d, s.columns)) + columns);
  }

  lemma StatementInPieces(d: Dialect, s: Select, columns: seq<Inline>, joins: seq<Inline>, conditions: seq<Inline>,
                          groups: seq<Inline>, having: seq<Inline>, order: seq<Inline>)
    ensures StatementInline(d, s, columns, joins, conditions, groups, having, order) ==
            HeadInline(d, s, columns) + LitAll(FromTexts(d, s)) + joins + SectionInline("WHERE ", conditions, " AND ")
            + SectionInline("GROUP BY ", LitAll(QualifiedTexts(d, s.groupBy)) + groups, ", ") + SectionInline("HAVING ", having, " AND ")
            + SectionInline("ORDER BY ", LitAll(OrderTexts(d, s.orderBy)) + order, ", ") + LitAll(LimitTexts(s))
  {}

  lemma FirstClausesAreBalanced(d: Dialect, s: Select, columns: seq<Inline>, conditions: seq<Inline>)
    requires NamesFit(d, s.columns) && AllBalanced(QuoteChar(d), columns) && AllBalanced(QuoteChar(d), conditions)
    ensures AllBalanced(QuoteChar(d), HeadInline(d, s, columns)) && AllBalanced(QuoteChar(d), LitAll(FromTexts(d, s)))
    ensures AllBalanced(QuoteChar(d), SectionInline("WHERE ", conditions, " AND "))
  {
    HeadInlineIsBalanced(d, s, columns);
    FromTextsAreBalanced(d, s);
    SectionIsBalanced(d, "WHERE ", conditions, " AND ");
  }

  lemma LastClausesAreBalanced(d: Dialect, s: Select, groups: seq<Inline>, having: seq<Inline>, order: seq<Inline>)
    requires NamesFit(d, s.groupBy) && forall i :: 0 <= i < |s.orderBy| ==> NameFits(d, s.orderBy[i].column)
    requires AllBalanced(QuoteChar(d), groups) && AllBalanced(QuoteChar(d), having) && AllBalanced(QuoteChar(d), order)
    ensures AllBalanced(QuoteChar(d), SectionInline("GROUP BY ", LitAll(QualifiedTexts(d, s.groupBy)) + groups, ", "))
    ensures AllBalanced(QuoteChar(d), SectionInline("HAVING ", having, " AND "))
    ensures AllBalanced(QuoteChar(d), SectionInline("ORDER BY ", LitAll(OrderTexts(d, s.orderBy)) + order, ", "))
    ensures AllBalanced(QuoteChar(d), LitAll(LimitTexts(s)))
  {
    QualifiedTextsAreBalanced(d, s.groupBy);
    ClauseIsBalanced(d, "GROUP BY ", LitAll(QualifiedTexts(d, s.groupBy)), groups);
    SectionIsBalanced(d, "HAVING ", having, " AND ");
    OrderTextsAreBalanced(d, s.orderBy);
    ClauseIsBalanced(d, "ORDER BY ", LitAll(OrderTexts(d, s.orderBy)), order);
    LimitTextsAreBalanced(d, s);
  }

  lemma ClausesAreBalanced(d: Dialect, s: Select, columns: seq<Inline>, joins: seq<Inline>, conditions: seq<Inline>,
                           groups: seq<Inline>, having: seq<Inline>, order: seq<Inline>)
    requires NamesFit(d, s.columns) && NamesFit(d, s.groupBy) && forall i :: 0 <= i < |s.orderBy| ==> NameFits(d, s.orderBy[i].column)
    requires AllBalanced(QuoteChar(d), columns) && AllBalanced(QuoteChar(d), joins) && AllBalanced(QuoteChar(d), conditions)
    requires AllBalanced(QuoteChar(d), groups) && AllBalanced(QuoteChar(d), having) && AllBalanced(QuoteChar(d), order)
    ensures AllBalanced(QuoteChar(d), StatementInline(d, s, columns, joins, conditions, groups, having, order))
  {
    FirstClausesAreBalanced(d, s, columns, conditions);
    LastClausesAreBalanced(d, s, groups, having, order);
    StatementInPieces(d, s, columns, joins, conditions, groups, having, order);
    EightListsBalanced(QuoteChar(d), HeadInline(d, s, columns), LitAll(FromTexts(d, s)), joins, SectionInline("WHERE ", conditions, " AND "),
                       SectionInline("GROUP BY ", LitAll(QualifiedTexts(d, s.groupBy)) + groups, ", "), SectionInline("HAVING ", having, " AND "),
                       SectionInline("ORDER BY ", LitAll(OrderTexts(d, s.orderBy)) + order, ", "), LitAll(LimitTexts(s)));
  }

  lemma StatementOfBalanced(d: Dialect, s: Select, columns: seq<Inline>, joins: seq<Inline>, conditions: seq<Inline>,
                            groups: seq<Inline>, having: seq<Inline>, order: seq<Inline>)
    requires NamesFit(d, s.columns) && NamesFit(d, s.groupBy) && forall i :: 0 <= i < |s.orderBy| ==> NameFits(d, s.orderBy[i].column)
    requires AllBalanced(QuoteChar(d), columns) && AllBalanced(QuoteChar(d), joins) && AllBalanced(QuoteChar(d), conditions)
    requires AllBalanced(QuoteChar(d), groups) && AllBalanced(QuoteChar(d), having) && AllBalanced(QuoteChar(d), order)
    ensures Balanced(QuoteChar(d), JoinInline(StatementInline(d, s, columns, joins, conditions, groups, having, order), " "))
  {
    ClausesAreBalanced(d, s, columns, joins, conditions, groups, having, order);
    UnmarkedIsBalanced(d, " ");
    JoinInlineIsBalanced(QuoteChar(d), StatementInline(d, s, columns, joins, conditions, groups, having, order), " ");
  }

  /** Whatever is nested in it, a statement leaves nothing open. */
  lemma {:induction false} StatementIsBalanced(d: Dialect, s: Select)
    requires IsStatement(d, s)
    ensures Balanced(QuoteChar(d), InlineSelect(d, s))
    decreases s, 1
  {
    AllAreBalanced(d, s.columnExprs);
    AllAreBalanced(d, s.joins);
    AllAreBalanced(d, s.conditions);
    AllAreBalanced(d, s.groupByExprs);
    AllAreBalanced(d, s.having);
    AllAreBalanced(d, s.orderByExprs);
    StatementOfBalanced(d, s, InlineAll(d, s.columnExprs), InlineAll(d, s.joins), InlineAll(d, s.conditions),
                        InlineAll(d, s.groupByExprs), InlineAll(d, s.having), InlineAll(d, s.orderByExprs));
  }
}
