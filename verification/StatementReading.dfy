/** A built SELECT, read clause by clause, asks for what its builder holds
    (query/select.go:276-417, database/dialect.go:59-68). */
module StatementReading {
  import opened Options
  import opened SqlText
  import opened QueryTree
  import opened QueryMeaning
  import opened SqlReading
  import opened ClauseReading
  import opened StatementTexts
  import opened ConditionMeaning

  // --------------------------------------------------- texts that are items

  /** A text read as one item. */
  ghost predicate ReadsItem(d: Dialect, t: Inline, ts: seq<Token>) {
    Reads(QuoteChar(d), t, ts) && Item(ts) && Heading(ts)
  }

  /** What may come first behind SELECT. */
  predicate Heading(ts: seq<Token>) {
    ts != [] && ts[0] != Word("DISTINCT")
  }

  predicate IsItemText(d: Dialect, t: Inline) {
    Lex(QuoteChar(d), t).Some? && Item(Lex(QuoteChar(d), t).value) && Heading(Lex(QuoteChar(d), t).value)
  }

  /** A name, or an expression that is one operand and one item. */
  predicate NameReads(d: Dialect, name: string) {
    '(' in name ==> IsOperand(d, name) && IsItemText(d, Lit(name))
  }

  /** A call's opening: a word, a parenthesis, and words behind it. */
  ghost predicate CallOpens(open: string) {
    exists w, mid :: open == w + "(" + mid && PlainWord(w) && w !in CLAUSE_WORDS && w != "DISTINCT" && Unmarked(mid)
  }

  /** Texts taken over as they are, raw fragments, keywords and names that are
      expressions, are single items; nested statements and what stands between
      parentheses are well kept. */
  ghost predicate IsItemNode(d: Dialect, n: Node)
    decreases n
  {
    match n
    case Comparison(column, operator, _) => NameReads(d, column) && operator in OPERATORS
    case ILike(column, _) => NameReads(d, column)
    case NullTest(column, _) => NameReads(d, column)
    case InList(column, _, _) => NameReads(d, column)
    case Between(column, _, _) => NameReads(d, column)
    case ColumnComparison(col1, operator, col2) => NameReads(d, col1) && NameReads(d, col2) && operator in OPERATORS
    case Logical(operator, conditions) => operator in {"AND", "OR"} && AreItemNodes(d, conditions)
    case Not(condition) => IsItemNode(d, condition)
    case Raw(sql, args) => IsItemText(d, RawInline(sql, args))
    case InSubquery(_, subquery, _) => IsStatement(d, subquery)
    case Exists(subquery, _) => IsStatement(d, subquery)
    case Column(_) => true
    case Literal(_) => true
    case Keyword(text) => IsItemText(d, Lit(text))
    case Call(open, operands) => CallOpens(open) && AllWellKept(d, operands)
    case Alias(expr, _) => IsItemNode(d, expr)
    case Case(operand, whens, otherwise) =>
      && (operand.Some? ==> IsItemNode(d, operand.value)) && AreItemNodes(d, whens)
      && (otherwise.Some? ==> IsItemNode(d, otherwise.value))
    case Over(call, window) => IsItemNode(d, call) && WellKept(d, window)
    case When(test, result) => IsItemNode(d, test) && IsItemNode(d, result)
    case _ => false
  }

  ghost predicate AreItemNodes(d: Dialect, ns: seq<Node>)
    decreases ns
  {
    ns == [] || (IsItemNode(d, ns[0]) && AreItemNodes(d, ns[1..]))
  }

  // --------------------------------------------------- between parentheses

  lemma LevelFirst(token: Token, ts: seq<Token>, depth: nat)
    ensures Level([token] + ts, depth + 1, EndsItem) ==
            Level(ts, if token == LParen then depth + 2 else if token == RParen then depth else depth + 1, EndsItem)
  {
    assert ([token] + ts)[1..] == ts;
  }

  ghost predicate Leveled(q: char, t: Inline, depth: nat, end: nat) {
    Lex(q, t).Some? && Level(Lex(q, t).value, depth + 1, EndsItem) == Some(end + 1)
  }

  lemma {:induction false} ScannedLevel(q: char, t: Inline, depth: nat)
    requires QuoteMark(q) && Scan(q, t, false, depth).Some? && !Scan(q, t, false, depth).value.0
    ensures Leveled(q, t, depth, Scan(q, t, false, depth).value.1)
    decreases |t|, 1
  {
    if t != [] {
      if t[0] == Chr(q) {
        NameScanned(q, t[1..], depth);
        var rest := ReadName(q, t[1..]).value.1;
        ScannedLevel(q, rest, depth);
        LevelFirst(Name(ReadName(q, t[1..]).value.0), Lex(q, rest).value, depth);
      } else if WordFrag(q, t[0]) {
        WordScanned(q, t, depth);
        var k := WordRun(q, t);
        ScannedLevel(q, t[k..], depth);
        LevelFirst(Word(Chars(t[..k])), Lex(q, t[k..]).value, depth);
      } else {
        MarkLevel(q, t, depth);
      }
    }
  }

  lemma {:induction false} MarkLevel(q: char, t: Inline, depth: nat)
    requires QuoteMark(q) && t != [] && t[0] != Chr(q) && !WordFrag(q, t[0])
    requires Scan(q, t, false, depth).Some? && !Scan(q, t, false, depth).value.0
    ensures Leveled(q, t, depth, Scan(q, t, false, depth).value.1)
    decreases |t|, 0
  {
    var next := if t[0] == Chr('(') then depth + 1 else if t[0] == Chr(')') then depth - 1 else depth;
    ScannedLevel(q, t[1..], next);
    var rest := Lex(q, t[1..]).value;
    if t[0].Val? {
      LevelFirst(Bound(t[0].value), rest, depth);
    } else if t[0].c != ' ' {
      LevelFirst(if t[0].c == '(' then LParen else if t[0].c == ')' then RParen else Comma, rest, depth);
    }
  }

  /** A balanced text may stand between parentheses. */
  lemma BalancedIsInside(d: Dialect, t: Inline) returns (inside: seq<Token>)
    requires Balanced(QuoteChar(d), t)
    ensures Reads(QuoteChar(d), t, inside) && Inside(inside)
  {
    ScannedLevel(QuoteChar(d), t, 0);
    inside := Lex(QuoteChar(d), t).value;
  }

  lemma StatementIsInside(d: Dialect, s: Select)
    requires IsStatement(d, s)
    ensures Inside(StatementTokens(d, s))
  {
    StatementIsBalanced(d, s);
    var inside := BalancedIsInside(d, InlineSelect(d, s));
  }

  lemma ItemIsInside(ts: seq<Token>)
    requires Item(ts)
    ensures Inside(ts)
  {
    LevelDeeper(ts, 0, EndsItem, EndsItem);
  }

  predicate NoParens(ts: seq<Token>) {
    forall i :: 0 <= i < |ts| ==> ts[i] != LParen && ts[i] != RParen
  }

  lemma {:induction false} NoParensInside(ts: seq<Token>)
    requires NoParens(ts)
    ensures Inside(ts)
  {
    if ts != [] { NoParensInside(ts[1..]); }
  }

  // --------------------------------------------------- names and leaves

  lemma {:induction false} DottedIsQuiet(names: seq<string>)
    requires names != []
    ensures Quiet(DottedTokens(names)) && DottedTokens(names) != [] && DottedTokens(names)[0].Name?
  {
    if |names| > 1 { DottedIsQuiet(names[1..]); }
  }

  lemma NameIsItem(d: Dialect, name: string)
    requires NameReads(d, name)
    ensures IsOperand(d, name) && ReadsItem(d, Lit(QuoteQualified(d, name)), ColumnTokens(d, name))
  {
    ReadsColumn(d, name);
    if '(' !in name {
      if '.' in name { DottedIsQuiet(SplitAtDots(name)); }
      QuietIsItem(ColumnTokens(d, name));
    }
  }

  lemma ItemThenQuiet(ts: seq<Token>, more: seq<Token>)
    requires Item(ts) && Quiet(more)
    ensures Item(ts + more)
  {
    QuietIsItem(more);
    ItemsConcat(ts, more);
  }

  lemma HeadingStays(ts: seq<Token>, more: seq<Token>)
    requires Heading(ts)
    ensures Heading(ts + more)
  {}

  lemma {:induction false} ListHasNoParens(values: seq<Value>)
    ensures NoParens(ListTokens(values))
  {
    if |values| > 1 { ListHasNoParens(values[1..]); }
  }

  lemma LoweredIsItem(c: seq<Token>, v: Value)
    requires Item(c)
    ensures
      var ts := LoweredTokens(c) + [Word("LIKE")] + [Word("LOWER")] + [LParen] + [Bound(v)] + [RParen];
      Item(ts) && Heading(ts)
  {
    ItemIsInside(c);
    QuietIsItem([Word("LOWER")]);
    EnclosedIsItem([Word("LOWER")], c);
    ItemThenQuiet(LoweredTokens(c), [Word("LIKE")]);
    ItemThenQuiet(LoweredTokens(c) + [Word("LIKE")], [Word("LOWER")]);
    NoParensInside([Bound(v)]);
    EnclosedIsItem(LoweredTokens(c) + [Word("LIKE")] + [Word("LOWER")], [Bound(v)]);
  }

  lemma TwoMore(c: seq<Token>, a: seq<Token>, b: seq<Token>)
    requires Item(c) && Heading(c) && Quiet(a) && Quiet(b)
    ensures Item(c + a + b) && Heading(c + a + b)
  {
    ItemThenQuiet(c, a);
    ItemThenQuiet(c + a, b);
  }

  lemma EnclosedBehind(c: seq<Token>, words: seq<Token>, inside: seq<Token>)
    requires Item(c) && Heading(c) && Quiet(words) && Inside(inside)
    ensures Item(c + words + [LParen] + inside + [RParen]) && Heading(c + words + [LParen] + inside + [RParen])
  {
    ItemThenQuiet(c, words);
    EnclosedIsItem(c + words, inside);
  }

  lemma OperatorIsQuiet(operator: string)
    requires operator in OPERATORS
    ensures Quiet(OperatorTokens(operator))
  {}

  /** The predicates of the leaves are items. */
  ghost predicate LeafItem(d: Dialect, n: Node) {
    Item(LeafTokens(d, n)) && Heading(LeafTokens(d, n))
  }

  lemma LeafItemIs(d: Dialect, n: Node, ts: seq<Token>)
    requires LeafTokens(d, n) == ts && Item(ts) && Heading(ts)
    ensures LeafItem(d, n)
  {}

  lemma ComparisonItem(d: Dialect, column: string, operator: string, value: Value)
    requires NameReads(d, column) && operator in OPERATORS
    ensures LeafItem(d, Comparison(column, operator, value))
  {
    NameIsItem(d, column);
    OperatorIsQuiet(operator);
    TwoMore(ColumnTokens(d, column), OperatorTokens(operator), [Bound(value)]);
  }

  lemma ILikeItem(d: Dialect, column: string, pattern: string)
    requires NameReads(d, column)
    ensures LeafItem(d, ILike(column, pattern))
  {
    NameIsItem(d, column);
    if d.Postgres? {
      TwoMore(ColumnTokens(d, column), [Word("ILIKE")], [Bound(StringValue(pattern))]);
    } else {
      LoweredIsItem(ColumnTokens(d, column), StringValue(pattern));
    }
  }

  lemma NullTestItem(d: Dialect, column: string, isNull: bool)
    requires NameReads(d, column)
    ensures LeafItem(d, NullTest(column, isNull))
  {
    var c := ColumnTokens(d, column);
    NameIsItem(d, column);
    if isNull {
      TwoMore(c, [Word("IS")], [Word("NULL")]);
    } else {
      TwoMore(c, [Word("IS")], [Word("NOT")]);
      ItemThenQuiet(c + [Word("IS")] + [Word("NOT")], [Word("NULL")]);
    }
  }

  lemma BetweenItem(d: Dialect, column: string, start: Value, end: Value)
    requires NameReads(d, column)
    ensures LeafItem(d, Between(column, start, end))
  {
    var c := ColumnTokens(d, column);
    NameIsItem(d, column);
    TwoMore(c, [Word("BETWEEN")], [Bound(start)]);
    TwoMore(c + [Word("BETWEEN")] + [Bound(start)], [Word("AND")], [Bound(end)]);
  }

  lemma ColumnComparisonItem(d: Dialect, col1: string, operator: string, col2: string)
    requires NameReads(d, col1) && NameReads(d, col2) && operator in OPERATORS
    ensures LeafItem(d, ColumnComparison(col1, operator, col2))
  {
    NameIsItem(d, col1);
    NameIsItem(d, col2);
    OperatorIsQuiet(operator);
    ItemThenQuiet(ColumnTokens(d, col1), OperatorTokens(operator));
    ItemsConcat(ColumnTokens(d, col1) + OperatorTokens(operator), ColumnTokens(d, col2));
  }

  lemma InListItem(d: Dialect, column: string, values: seq<Value>, notIn: bool)
    requires NameReads(d, column)
    ensures LeafItem(d, InList(column, values, notIn))
  {
    if values == [] {
      QuietIsItem([Word(if notIn then "1=1" else "1=0")]);
    } else {
      NameIsItem(d, column);
      ListHasNoParens(values);
      NoParensInside(ListTokens(values));
      EnclosedBehind(ColumnTokens(d, column), InTokens(notIn), ListTokens(values));
    }
  }

  lemma InSubqueryItem(column: string, negate: bool, inside: seq<Token>)
    requires Inside(inside)
    ensures Item(InSubqueryTokens(column, negate, inside)) && Heading(InSubqueryTokens(column, negate, inside))
  {
    QuietIsItem([Name(column)]);
    EnclosedBehind([Name(column)], InTokens(negate), inside);
  }

  lemma ExistsItem(inside: seq<Token>)
    requires Inside(inside)
    ensures Item(ExistsTokens(inside)) && Heading(ExistsTokens(inside))
  {
    QuietIsItem([Word("EXISTS")]);
    EnclosedIsItem([Word("EXISTS")], inside);
  }

  lemma NodeIs(d: Dialect, n: Node, ts: seq<Token>)
    requires ReadsItem(d, InlineOf(d, n), ts)
    ensures ReadsItem(d, InlineOf(d, n), TokensOf(d, n)) && TokensOf(d, n) == ts
  {}

  lemma TextIs(d: Dialect, n: Node, t: Inline, ts: seq<Token>)
    requires InlineOf(d, n) == t && ReadsItem(d, t, ts)
    ensures ReadsItem(d, InlineOf(d, n), TokensOf(d, n)) && TokensOf(d, n) == ts
  {}

  lemma LeafReadsItem(d: Dialect, n: Node)
    requires ReadsAsLeaf(d, n) && LeafItem(d, n)
    ensures ReadsItem(d, InlineOf(d, n), TokensOf(d, n))
  {}

  lemma LeafNodeReads(d: Dialect, n: Node)
    requires IsItemNode(d, n)
    requires n.Comparison? || n.ILike? || n.NullTest? || n.Between? || n.ColumnComparison? || n.InList?
    ensures ReadsItem(d, InlineOf(d, n), TokensOf(d, n))
  {
    match n {
      case Comparison(column, operator, value) => ComparisonLeaf(d, column, operator, value); ComparisonItem(d, column, operator, value);
      case ILike(column, pattern) => ILikeLeaf(d, column, pattern); ILikeItem(d, column, pattern);
      case NullTest(column, isNull) => NullTestLeaf(d, column, isNull); NullTestItem(d, column, isNull);
      case Between(column, start, end) => BetweenLeaf(d, column, start, end); BetweenItem(d, column, start, end);
      case ColumnComparison(col1, operator, col2) => ColumnComparisonLeaf(d, col1, operator, col2); ColumnComparisonItem(d, col1, operator, col2);
      case InList(column, values, notIn) => InListLeaf(d, column, values, notIn); InListItem(d, column, values, notIn);
    }
    LeafReadsItem(d, n);
  }

  lemma InSubqueryNodeReads(d: Dialect, column: string, subquery: Select, negate: bool)
    requires IsStatement(d, subquery)
    ensures ReadsItem(d, InlineOf(d, InSubquery(column, subquery, negate)), TokensOf(d, InSubquery(column, subquery, negate)))
  {
    var n, inside := InSubquery(column, subquery, negate), StatementTokens(d, subquery);
    StatementIsInside(d, subquery);
    InSubqueryItem(column, negate, inside);
    InSubqueryTokensAre(d, column, subquery, negate);
    LeafItemIs(d, n, InSubqueryTokens(column, negate, inside));
    InSubqueryLeaf(d, column, subquery, negate);
    LeafReadsItem(d, n);
  }

  lemma ExistsLeafItem(d: Dialect, subquery: Select)
    requires IsStatement(d, subquery)
    ensures LeafItem(d, Exists(subquery, false))
  {
    StatementIsInside(d, subquery);
    ExistsItem(StatementTokens(d, subquery));
    ExistsTokensAre(d, subquery, false);
    LeafItemIs(d, Exists(subquery, false), ExistsTokens(StatementTokens(d, subquery)));
  }

  lemma NegatedItem(ts: seq<Token>)
    requires Item(ts)
    ensures Item([Word("NOT")] + ts) && Heading([Word("NOT")] + ts)
  {
    QuietIsItem([Word("NOT")]);
    ItemsConcat([Word("NOT")], ts);
  }

  lemma ExistsNodeReads(d: Dialect, subquery: Select, negate: bool)
    requires IsStatement(d, subquery)
    ensures ReadsItem(d, InlineOf(d, Exists(subquery, negate)), TokensOf(d, Exists(subquery, negate)))
  {
    var leaf := Exists(subquery, false);
    ExistsLeafItem(d, subquery);
    if negate {
      NotExistsLeaf(d, subquery);
      NegatedItem(LeafTokens(d, leaf));
      NodeIs(d, Exists(subquery, true), [Word("NOT")] + LeafTokens(d, leaf));
    } else {
      ExistsLeaf(d, subquery);
      LeafReadsItem(d, leaf);
    }
  }

  // --------------------------------------------------- pieces in a row

  ghost predicate Aligned(d: Dialect, texts: seq<Inline>, tokens: seq<seq<Token>>) {
    |texts| == |tokens| && forall i :: 0 <= i < |texts| ==> Reads(QuoteChar(d), texts[i], tokens[i])
  }

  ghost predicate ItemsRow(d: Dialect, texts: seq<Inline>, tokens: seq<seq<Token>>) {
    Aligned(d, texts, tokens) && forall i :: 0 <= i < |tokens| ==> Item(tokens[i])
  }

  /** Texts with blanks between them. */
  lemma {:induction false} BlanksRead(d: Dialect, texts: seq<Inline>, tokens: seq<seq<Token>>)
    requires Aligned(d, texts, tokens)
    ensures Reads(QuoteChar(d), JoinInline(texts, " "), Flat(tokens))
  {
    if |texts| == 0 {
      assert Lex(QuoteChar(d), []) == Some([]);
    } else if |texts| == 1 {
      assert tokens == [tokens[0]];
      FlatOfOne(tokens[0]);
    } else {
      BlanksRead(d, texts[1..], tokens[1..]);
      ReadsSpaced(QuoteChar(d), texts[0], tokens[0], JoinInline(texts[1..], " "), Flat(tokens[1..]));
    }
  }

  /** Texts with commas between them. */
  lemma {:induction false} CommasRead(d: Dialect, texts: seq<Inline>, tokens: seq<seq<Token>>)
    requires Aligned(d, texts, tokens)
    ensures Reads(QuoteChar(d), JoinInline(texts, ", "), Listed(tokens))
  {
    if |texts| == 0 {
      assert Lex(QuoteChar(d), []) == Some([]);
    } else if |texts| > 1 {
      CommasRead(d, texts[1..], tokens[1..]);
      CommaRead(d, texts[0], tokens[0], JoinInline(texts[1..], ", "), Listed(tokens[1..]));
    }
  }

  lemma CommaRead(d: Dialect, t: Inline, ts: seq<Token>, rest: Inline, rts: seq<Token>)
    requires Reads(QuoteChar(d), t, ts) && Reads(QuoteChar(d), rest, rts)
    ensures Reads(QuoteChar(d), t + Lit(", ") + rest, ts + [Comma] + rts)
  {
    var q := QuoteChar(d);
    ReadsThenMark(q, t, ts, ',');
    ReadsSpaced(q, t + Lit(","), ts + [Comma], rest, rts);
    assert Lit(", ") == Lit(",") + Lit(" ");
    assert t + Lit(", ") == t + Lit(",") + Lit(" ");
  }

  lemma {:induction false} FlatItems(tokens: seq<seq<Token>>)
    requires forall i :: 0 <= i < |tokens| ==> Item(tokens[i])
    ensures Item(Flat(tokens))
  {
    if tokens != [] {
      FlatItems(tokens[1..]);
      ItemsConcat(tokens[0], Flat(tokens[1..]));
    }
  }

  function AllTokens(d: Dialect, ns: seq<Node>): seq<seq<Token>> {
    seq(|ns|, i requires 0 <= i < |ns| => TokensOf(d, ns[i]))
  }

  ghost predicate AllItems(d: Dialect, ns: seq<Node>) {
    forall i :: 0 <= i < |ns| ==> ReadsItem(d, InlineOf(d, ns[i]), TokensOf(d, ns[i]))
  }

  lemma {:induction false} InlineAllAt(d: Dialect, ns: seq<Node>)
    ensures forall i :: 0 <= i < |ns| ==> InlineAll(d, ns)[i] == InlineOf(d, ns[i])
  {
    if ns != [] {
      InlineAllAt(d, ns[1..]);
      forall i | 0 < i < |ns| ensures InlineAll(d, ns)[i] == InlineOf(d, ns[i]) { assert ns[i] == ns[1..][i - 1]; }
    }
  }

  lemma ItemsAlign(d: Dialect, ns: seq<Node>)
    requires AllItems(d, ns)
    ensures ItemsRow(d, InlineAll(d, ns), AllTokens(d, ns))
  {
    InlineAllAt(d, ns);
    forall i | 0 <= i < |ns| ensures Reads(QuoteChar(d), InlineAll(d, ns)[i], AllTokens(d, ns)[i]) && Item(AllTokens(d, ns)[i]) {
      assert ReadsItem(d, InlineOf(d, ns[i]), TokensOf(d, ns[i]));
    }
  }

  // --------------------------------------------------- composite nodes

  lemma NotNodeReads(d: Dialect, condition: Node)
    requires ReadsItem(d, InlineOf(d, condition), TokensOf(d, condition))
    ensures ReadsItem(d, InlineOf(d, Not(condition)), TokensOf(d, Not(condition)))
  {
    var ts := TokensOf(d, condition);
    NotReads(d, InlineOf(d, condition), ts);
    QuietIsItem([Word("NOT")]);
    ItemIsInside(ts);
    EnclosedIsItem([Word("NOT")], ts);
    NodeIs(d, Not(condition), [Word("NOT")] + [LParen] + ts + [RParen]);
  }

  lemma {:induction false} JoinedIsItem(d: Dialect, ns: seq<Node>, keyword: string)
    requires AllItems(d, ns) && Quiet([Word(keyword)])
    ensures AllRead(d, ns) && Item(JoinedTokens(d, ns, keyword)) && (ns != [] ==> JoinedTokens(d, ns, keyword) != [])
  {
    if |ns| == 0 {
      QuietIsItem([]);
    } else {
      assert ReadsItem(d, InlineOf(d, ns[0]), TokensOf(d, ns[0]));
      if |ns| > 1 {
        JoinedIsItem(d, ns[1..], keyword);
        ItemThenQuiet(TokensOf(d, ns[0]), [Word(keyword)]);
        ItemsConcat(TokensOf(d, ns[0]) + [Word(keyword)], JoinedTokens(d, ns[1..], keyword));
      }
    }
  }

  lemma LogicalNodeReads(d: Dialect, operator: string, conditions: seq<Node>)
    requires operator in {"AND", "OR"} && AllItems(d, conditions)
    ensures ReadsItem(d, InlineOf(d, Logical(operator, conditions)), TokensOf(d, Logical(operator, conditions)))
  {
    var n := Logical(operator, conditions);
    if |conditions| == 0 {
      ReadsWord(d, "1=1");
      QuietIsItem([Word("1=1")]);
      NodeIs(d, n, [Word("1=1")]);
    } else if |conditions| == 1 {
      assert ReadsItem(d, InlineOf(d, conditions[0]), TokensOf(d, conditions[0]));
      assert InlineOf(d, n) == InlineOf(d, conditions[0]);
    } else {
      var ts := JoinedTokens(d, conditions, operator);
      JoinedIsItem(d, conditions, operator);
      ReadsJoined(d, conditions, operator);
      ParenthesesRead(d, JoinInline(InlineAll(d, conditions), " " + operator + " "), ts);
      LogicalText(d, operator, conditions);
      ParenthesizedIsItem(ts);
      NodeIs(d, n, [LParen] + ts + [RParen]);
    }
  }

  lemma ParenthesizedIsItem(ts: seq<Token>)
    requires Item(ts)
    ensures Item([LParen] + ts + [RParen]) && Heading([LParen] + ts + [RParen])
  {
    ItemIsInside(ts);
    QuietIsItem([]);
    EnclosedIsItem([], ts);
    assert [] + [LParen] == [LParen];
  }

  lemma CallReads(d: Dialect, w: string, mid: string, list: Inline) returns (ts: seq<Token>)
    requires PlainWord(w) && w !in CLAUSE_WORDS && w != "DISTINCT" && Balanced(QuoteChar(d), Lit(mid) + list)
    ensures ReadsItem(d, WrapInline(w + "(", Lit(mid) + list, ")"), ts)
  {
    var inside := BalancedIsInside(d, Lit(mid) + list);
    ReadsWord(d, w);
    EnclosedReads(d, w, [Word(w)], Lit(mid) + list, inside);
    QuietIsItem([Word(w)]);
    EnclosedIsItem([Word(w)], inside);
    ts := [Word(w)] + [LParen] + inside + [RParen];
  }

  lemma CallInline(d: Dialect, open: string, operands: seq<Node>)
    ensures InlineOf(d, Call(open, operands)) == WrapInline(open, JoinInline(InlineAll(d, operands), ", "), ")")
  {}

  lemma CallNodeReads(d: Dialect, open: string, operands: seq<Node>)
    requires CallOpens(open) && AllWellKept(d, operands)
    ensures ReadsItem(d, InlineOf(d, Call(open, operands)), TokensOf(d, Call(open, operands)))
  {
    var w, mid :| open == w + "(" + mid && PlainWord(w) && w !in CLAUSE_WORDS && w != "DISTINCT" && Unmarked(mid);
    var q, list := QuoteChar(d), JoinInline(InlineAll(d, operands), ", ");
    AllAreBalanced(d, operands);
    UnmarkedIsBalanced(d, ", ");
    JoinInlineIsBalanced(q, InlineAll(d, operands), ", ");
    UnmarkedIsBalanced(d, mid);
    BothBalanced(q, Lit(mid), list);
    var ts := CallReads(d, w, mid, list);
    CallText(w, mid, list);
    CallInline(d, open, operands);
    TextIs(d, Call(open, operands), WrapInline(w + "(", Lit(mid) + list, ")"), ts);
  }

  lemma CallText(w: string, mid: string, list: Inline)
    ensures WrapInline(w + "(" + mid, list, ")") == WrapInline(w + "(", Lit(mid) + list, ")")
  {
    LitConcat(w + "(", mid);
  }

  /** A text, then a word and a name or another text. */
  lemma WordBehind(d: Dialect, t: Inline, ts: seq<Token>, w: string, rest: Inline, rts: seq<Token>)
    requires ReadsItem(d, t, ts) && PlainWord(w) && Quiet([Word(w)]) && Reads(QuoteChar(d), rest, rts) && Item(rts)
    ensures ReadsItem(d, t + Lit(" " + w + " ") + rest, ts + [Word(w)] + rts)
  {
    ReadsKeyword(d, t, ts, w, rest, rts);
    ItemThenQuiet(ts, [Word(w)]);
    ItemsConcat(ts + [Word(w)], rts);
  }

  /** A word, then a text. */
  lemma WordBefore(d: Dialect, w: string, t: Inline, ts: seq<Token>)
    requires PlainWord(w) && Quiet([Word(w)]) && w != "DISTINCT" && Reads(QuoteChar(d), t, ts) && Item(ts)
    ensures ReadsItem(d, Lit(w + " ") + t, [Word(w)] + ts)
  {
    ReadsWord(d, w);
    ReadsSpaced(QuoteChar(d), Lit(w), [Word(w)], t, ts);
    LitConcat(w, " ");
    QuietIsItem([Word(w)]);
    ItemsConcat([Word(w)], ts);
  }

  lemma AliasReads(d: Dialect, t: Inline, ts: seq<Token>, alias: string)
    requires ReadsItem(d, t, ts)
    ensures ReadsItem(d, WrapInline("", t, " AS " + Quote(d, alias)), ts + [Word("AS")] + [Name(alias)])
  {
    LexQuoted(d, alias);
    QuietIsItem([Name(alias)]);
    WordBehind(d, t, ts, "AS", Lit(Quote(d, alias)), [Name(alias)]);
    AliasText(t, Quote(d, alias));
  }

  lemma AliasInline(d: Dialect, expr: Node, alias: string)
    ensures InlineOf(d, Alias(expr, alias)) == WrapInline("", InlineOf(d, expr), " AS " + Quote(d, alias))
  {}

  lemma AliasNodeReads(d: Dialect, expr: Node, alias: string)
    requires ReadsItem(d, InlineOf(d, expr), TokensOf(d, expr))
    ensures ReadsItem(d, InlineOf(d, Alias(expr, alias)), TokensOf(d, Alias(expr, alias)))
    ensures TokensOf(d, Alias(expr, alias)) == TokensOf(d, expr) + [Word("AS")] + [Name(alias)]
  {
    AliasReads(d, InlineOf(d, expr), TokensOf(d, expr), alias);
    AliasInline(d, expr, alias);
    TextIs(d, Alias(expr, alias), WrapInline("", InlineOf(d, expr), " AS " + Quote(d, alias)), TokensOf(d, expr) + [Word("AS")] + [Name(alias)]);
  }

  lemma AliasText(t: Inline, quoted: string)
    ensures WrapInline("", t, " AS " + quoted) == t + Lit(" " + "AS" + " ") + Lit(quoted)
  {
    assert Lit("") == [] && " " + "AS" + " " == " AS ";
    LitConcat(" AS ", quoted);
    assert [] + t + (Lit(" AS ") + Lit(quoted)) == t + Lit(" AS ") + Lit(quoted);
  }

  lemma OverReads(d: Dialect, t: Inline, ts: seq<Token>, w: Inline, inside: seq<Token>)
    requires ReadsItem(d, t, ts) && Reads(QuoteChar(d), w, inside) && Inside(inside)
    ensures ReadsItem(d, WrapInline("", JoinInline([t] + [w], " OVER ("), ")"), ts + ([Word("OVER")] + [LParen] + inside + [RParen]))
  {
    var q := QuoteChar(d);
    ReadsWord(d, "OVER");
    ReadsBlank(q, "OVER", [Word("OVER")]);
    EnclosedReads(d, "OVER" + " ", [Word("OVER")], w, inside);
    ReadsSpaced(q, t, ts, WrapInline("OVER" + " " + "(", w, ")"), [Word("OVER")] + [LParen] + inside + [RParen]);
    OverInText(t, w);
    QuietIsItem([Word("OVER")]);
    EnclosedIsItem([Word("OVER")], inside);
    ItemsConcat(ts, [Word("OVER")] + [LParen] + inside + [RParen]);
  }

  lemma OverNodeReads(d: Dialect, call: Node, window: Node)
    requires ReadsItem(d, InlineOf(d, call), TokensOf(d, call)) && WellKept(d, window)
    ensures ReadsItem(d, InlineOf(d, Over(call, window)), TokensOf(d, Over(call, window)))
    ensures TokensOf(d, Over(call, window)) == TokensOf(d, call) + ([Word("OVER")] + [LParen] + TokensOf(d, window) + [RParen])
  {
    var t, w := InlineOf(d, call), InlineOf(d, window);
    NodeIsBalanced(d, window);
    var inside := BalancedIsInside(d, w);
    OverReads(d, t, TokensOf(d, call), w, inside);
    TextIs(d, Over(call, window), WrapInline("", JoinInline([t] + [w], " OVER ("), ")"), TokensOf(d, call) + ([Word("OVER")] + [LParen] + inside + [RParen]));
  }

  lemma OverInText(t: Inline, w: Inline)
    ensures WrapInline("", JoinInline([t] + [w], " OVER ("), ")") == t + Lit(" ") + WrapInline("OVER" + " " + "(", w, ")")
  {
    assert ([t] + [w])[1..] == [w] && Lit("") == [];
    assert " OVER (" == " " + ("OVER" + " " + "(");
    LitConcat(" ", "OVER" + " " + "(");
    OverText(t, Lit(" OVER ("), w, Lit(")"));
    RegroupText(t, Lit(" "), Lit("OVER" + " " + "("), w, Lit(")"));
  }

  lemma RegroupText(t: Inline, blank: Inline, open: Inline, w: Inline, close: Inline)
    ensures t + ((blank + open) + w + close) == t + blank + (open + w + close)
  {}

  lemma WhenReads(d: Dialect, t: Inline, ts: seq<Token>, r: Inline, rs: seq<Token>)
    requires ReadsItem(d, t, ts) && ReadsItem(d, r, rs)
    ensures ReadsItem(d, WrapInline("WHEN ", JoinInline([t] + [r], " THEN "), ""), [Word("WHEN")] + (ts + [Word("THEN")] + rs))
  {
    WordBehind(d, t, ts, "THEN", r, rs);
    WordBefore(d, "WHEN", t + Lit(" " + "THEN" + " ") + r, ts + [Word("THEN")] + rs);
    WhenText(t, r);
  }

  lemma WhenInline(d: Dialect, test: Node, result: Node)
    ensures InlineOf(d, When(test, result)) == WrapInline("WHEN ", JoinInline([InlineOf(d, test)] + [InlineOf(d, result)], " THEN "), "")
  {}

  lemma WhenNodeReads(d: Dialect, test: Node, result: Node)
    requires ReadsItem(d, InlineOf(d, test), TokensOf(d, test)) && ReadsItem(d, InlineOf(d, result), TokensOf(d, result))
    ensures ReadsItem(d, InlineOf(d, When(test, result)), TokensOf(d, When(test, result)))
    ensures TokensOf(d, When(test, result)) == [Word("WHEN")] + (TokensOf(d, test) + [Word("THEN")] + TokensOf(d, result))
  {
    var t, r := InlineOf(d, test), InlineOf(d, result);
    WhenReads(d, t, TokensOf(d, test), r, TokensOf(d, result));
    WhenInline(d, test, result);
    TextIs(d, When(test, result), WrapInline("WHEN ", JoinInline([t] + [r], " THEN "), ""), [Word("WHEN")] + (TokensOf(d, test) + [Word("THEN")] + TokensOf(d, result)));
  }

  lemma WhenText(t: Inline, r: Inline)
    ensures WrapInline("WHEN ", JoinInline([t] + [r], " THEN "), "") == Lit("WHEN" + " ") + (t + Lit(" " + "THEN" + " ") + r)
  {
    assert ([t] + [r])[1..] == [r] && Lit("") == [];
    assert " " + "THEN" + " " == " THEN " && "WHEN" + " " == "WHEN ";
  }

  function CaseHead(d: Dialect, operand: Option<Node>): Inline {
    if operand.Some? then WrapInline("CASE ", InlineOf(d, operand.value), "") else Lit("CASE")
  }

  function CaseTail(d: Dialect, otherwise: Option<Node>): seq<Inline> {
    if otherwise.Some? then [WrapInline("ELSE ", InlineOf(d, otherwise.value), "")] else []
  }

  function CaseHeadTokens(d: Dialect, operand: Option<Node>): seq<Token> {
    [Word("CASE")] + if operand.Some? then TokensOf(d, operand.value) else []
  }

  function CaseTailTokens(d: Dialect, otherwise: Option<Node>): seq<seq<Token>> {
    if otherwise.Some? then [[Word("ELSE")] + TokensOf(d, otherwise.value)] else []
  }

  ghost predicate OptionReads(d: Dialect, n: Option<Node>) {
    n.Some? ==> ReadsItem(d, InlineOf(d, n.value), TokensOf(d, n.value))
  }

  lemma CaseText(d: Dialect, n: Node)
    requires n.Case?
    ensures InlineOf(d, n) == JoinInline([CaseHead(d, n.operand)] + InlineAll(d, n.whens) + CaseTail(d, n.otherwise) + LitAll(["END"]), " ")
  {}

  lemma CaseNodeReads(d: Dialect, n: Node)
    requires n.Case? && AllItems(d, n.whens) && OptionReads(d, n.operand) && OptionReads(d, n.otherwise)
    ensures ReadsItem(d, InlineOf(d, n), TokensOf(d, n))
    ensures TokensOf(d, n) == Flat([CaseHeadTokens(d, n.operand)] + AllTokens(d, n.whens) + CaseTailTokens(d, n.otherwise) + [[Word("END")]])
  {
    CaseHeadReads(d, n.operand);
    CaseTailReads(d, n.otherwise);
    ItemsAlign(d, n.whens);
    CasePieces(d, CaseHead(d, n.operand), CaseHeadTokens(d, n.operand), InlineAll(d, n.whens), AllTokens(d, n.whens),
               CaseTail(d, n.otherwise), CaseTailTokens(d, n.otherwise));
    CaseText(d, n);
    NodeIs(d, n, Flat([CaseHeadTokens(d, n.operand)] + AllTokens(d, n.whens) + CaseTailTokens(d, n.otherwise) + [[Word("END")]]));
  }

  lemma CaseTailReads(d: Dialect, otherwise: Option<Node>)
    requires OptionReads(d, otherwise)
    ensures ItemsRow(d, CaseTail(d, otherwise), CaseTailTokens(d, otherwise))
  {
    if otherwise.Some? {
      assert "ELSE" + " " == "ELSE ";
      FramedWord(d, "ELSE", InlineOf(d, otherwise.value), TokensOf(d, otherwise.value));
    }
  }

  lemma FramedWord(d: Dialect, w: string, t: Inline, ts: seq<Token>)
    requires PlainWord(w) && Quiet([Word(w)]) && w != "DISTINCT" && Reads(QuoteChar(d), t, ts) && Item(ts)
    ensures ReadsItem(d, WrapInline(w + " ", t, ""), [Word(w)] + ts)
  {
    WordBefore(d, w, t, ts);
    assert Lit("") == [];
    assert WrapInline(w + " ", t, "") == Lit(w + " ") + t;
  }

  lemma CaseHeadReads(d: Dialect, operand: Option<Node>)
    requires OptionReads(d, operand)
    ensures ReadsItem(d, CaseHead(d, operand), CaseHeadTokens(d, operand))
  {
    if operand.Some? {
      assert "CASE" + " " == "CASE ";
      FramedWord(d, "CASE", InlineOf(d, operand.value), TokensOf(d, operand.value));
    } else {
      ReadsWord(d, "CASE");
      QuietIsItem([Word("CASE")]);
      assert [Word("CASE")] + [] == [Word("CASE")];
    }
  }

  lemma RowsJoin(d: Dialect, a: seq<Inline>, x: seq<seq<Token>>, b: seq<Inline>, y: seq<seq<Token>>)
    requires ItemsRow(d, a, x) && ItemsRow(d, b, y)
    ensures ItemsRow(d, a + b, x + y)
  {
    assert |a + b| == |x + y|;
  }

  lemma RowOfOne(d: Dialect, t: Inline, ts: seq<Token>)
    requires Reads(QuoteChar(d), t, ts) && Item(ts)
    ensures ItemsRow(d, [t], [ts])
  {}

  lemma CasePieces(d: Dialect, head: Inline, heads: seq<Token>, whens: seq<Inline>, whenTokens: seq<seq<Token>>, tail: seq<Inline>, tails: seq<seq<Token>>)
    requires ReadsItem(d, head, heads) && ItemsRow(d, whens, whenTokens) && ItemsRow(d, tail, tails)
    ensures ReadsItem(d, JoinInline([head] + whens + tail + LitAll(["END"]), " "), Flat([heads] + whenTokens + tails + [[Word("END")]]))
  {
    ReadsWord(d, "END");
    QuietIsItem([Word("END")]);
    assert LitAll(["END"]) == [Lit("END")];
    RowOfOne(d, Lit("END"), [Word("END")]);
    RowOfOne(d, head, heads);
    RowsJoin(d, [head], [heads], whens, whenTokens);
    RowsJoin(d, [head] + whens, [heads] + whenTokens, tail, tails);
    RowsJoin(d, [head] + whens + tail, [heads] + whenTokens + tails, [Lit("END")], [[Word("END")]]);
    RowReads(d, heads, [head] + whens + tail + [Lit("END")], [heads] + whenTokens + tails + [[Word("END")]]);
  }

  lemma RowReads(d: Dialect, heads: seq<Token>, texts: seq<Inline>, tokens: seq<seq<Token>>)
    requires ItemsRow(d, texts, tokens) && tokens != [] && tokens[0] == heads && Heading(heads)
    ensures ReadsItem(d, JoinInline(texts, " "), Flat(tokens))
  {
    BlanksRead(d, texts, tokens);
    FlatItems(tokens);
    HeadingStays(heads, Flat(tokens[1..]));
  }

  /** Every such node is read as one item. */
  lemma {:induction false} NodeReads(d: Dialect, n: Node)
    requires IsItemNode(d, n)
    ensures ReadsItem(d, InlineOf(d, n), TokensOf(d, n))
    decreases n, 1
  {
    match n
    case Logical(operator, conditions) => NodesRead(d, conditions); LogicalNodeReads(d, operator, conditions);
    case Not(condition) => NodeReads(d, condition); NotNodeReads(d, condition);
    case Raw(_, _) =>
    case InSubquery(column, subquery, negate) => InSubqueryNodeReads(d, column, subquery, negate);
    case Exists(subquery, negate) => ExistsNodeReads(d, subquery, negate);
    case Column(name) => LexQuoted(d, name); QuietIsItem([Name(name)]); NodeIs(d, n, [Name(name)]);
    case Literal(value) => ReadsValue(QuoteChar(d), value); QuietIsItem([Bound(value)]); NodeIs(d, n, [Bound(value)]);
    case Keyword(_) =>
    case Call(open, operands) => CallNodeReads(d, open, operands);
    case Alias(expr, alias) => NodeReads(d, expr); AliasNodeReads(d, expr, alias);
    case Case(_, _, _) => CasePartsRead(d, n); CaseNodeReads(d, n);
    case Over(call, window) => NodeReads(d, call); OverNodeReads(d, call, window);
    case When(test, result) => NodeReads(d, test); NodeReads(d, result); WhenNodeReads(d, test, result);
    case _ => LeafNodeReads(d, n);
  }

  lemma {:induction false} CasePartsRead(d: Dialect, n: Node)
    requires IsItemNode(d, n) && n.Case?
    ensures AllItems(d, n.whens) && OptionReads(d, n.operand) && OptionReads(d, n.otherwise)
    decreases n, 0
  {
    if n.operand.Some? { NodeReads(d, n.operand.value); }
    if n.otherwise.Some? { NodeReads(d, n.otherwise.value); }
    NodesRead(d, n.whens);
  }

  lemma {:induction false} NodesRead(d: Dialect, ns: seq<Node>)
    requires AreItemNodes(d, ns)
    ensures AllItems(d, ns)
    decreases ns, 1
  {
    if ns != [] {
      NodeReads(d, ns[0]);
      NodesRead(d, ns[1..]);
      forall i | 0 < i < |ns| ensures ReadsItem(d, InlineOf(d, ns[i]), TokensOf(d, ns[i])) { assert ns[i] == ns[1..][i - 1]; }
    }
  }

  // --------------------------------------------------- what a SELECT asks for

  function NameTokens(d: Dialect, names: seq<string>): seq<seq<Token>> {
    seq(|names|, i requires 0 <= i < |names| => ColumnTokens(d, names[i]))
  }

  function TableTokens(table: string, alias: string): seq<Token> {
    [Name(table)] + if alias != "" then [Word("AS")] + [Name(alias)] else []
  }

  function KindTokens(kind: string): seq<Token> {
    if kind == "INNER JOIN" then [Word("INNER")] + [Word("JOIN")]
    else if kind == "LEFT JOIN" then [Word("LEFT")] + [Word("JOIN")]
    else if kind == "RIGHT JOIN" then [Word("RIGHT")] + [Word("JOIN")]
    else [Word("FULL")] + ([Word("OUTER")] + [Word("JOIN")])
  }

  function JoinTokens(d: Dialect, n: Node): seq<Token> {
    match n
    case JoinOn(kind, table, alias, on) => KindTokens(kind) + (TableTokens(table, alias) + [Word("ON")] + TokensOf(d, on))
    case CrossJoin(table, alias) => [Word("CROSS")] + ([Word("JOIN")] + TableTokens(table, alias))
    case _ => []
  }

  function JoinsOf(d: Dialect, ns: seq<Node>): seq<seq<Token>> {
    seq(|ns|, i requires 0 <= i < |ns| => JoinTokens(d, ns[i]))
  }

  function ColumnOrder(d: Dialect, order: seq<OrderColumn>): seq<(seq<Token>, bool)> {
    seq(|order|, i requires 0 <= i < |order| => (ColumnTokens(d, order[i].column), order[i].descending))
  }

  function NodeOrder(d: Dialect, ns: seq<Node>): seq<(seq<Token>, bool)> {
    seq(|ns|, i requires 0 <= i < |ns| => if ns[i].Ordered? then (TokensOf(d, ns[i].expr), ns[i].descending) else ([], false))
  }

  /** A number that counts only when it is positive. */
  function Positive(n: int): Option<nat> {
    if n > 0 then Some(n) else None
  }

  /** What the builder holds, as a query: no clause is printed to say it. */
  function QueryOf(d: Dialect, s: Select): Query {
    Query(
      s.distinct,
      if s.columns == [] && s.columnExprs == [] then [[Word("*")]] else NameTokens(d, s.columns) + AllTokens(d, s.columnExprs),
      if s.table == "" then [] else TableTokens(s.table, s.tableAlias),
      JoinsOf(d, s.joins),
      JoinedTokens(d, s.conditions, "AND"),
      NameTokens(d, s.groupBy) + AllTokens(d, s.groupByExprs),
      JoinedTokens(d, s.having, "AND"),
      ColumnOrder(d, s.orderBy) + NodeOrder(d, s.orderByExprs),
      Positive(s.limit),
      Positive(s.offset))
  }

  predicate NamesRead(d: Dialect, names: seq<string>) {
    forall i :: 0 <= i < |names| ==> NameReads(d, names[i])
  }

  ghost predicate IsJoinNode(d: Dialect, n: Node) {
    (n.JoinOn? && n.kind in JOINS && IsItemNode(d, n.on)) || n.CrossJoin?
  }

  ghost predicate IsOrderNode(d: Dialect, n: Node) {
    n.Ordered? && IsItemNode(d, n.expr)
  }

  /** The builder holds nothing that, as it is, would be more than one item. */
  ghost predicate IsReadable(d: Dialect, s: Select) {
    && NamesRead(d, s.columns) && AreItemNodes(d, s.columnExprs)
    && (forall i :: 0 <= i < |s.joins| ==> IsJoinNode(d, s.joins[i]))
    && AreItemNodes(d, s.conditions) && NamesRead(d, s.groupBy) && AreItemNodes(d, s.groupByExprs) && AreItemNodes(d, s.having)
    && (forall i :: 0 <= i < |s.orderBy| ==> NameReads(d, s.orderBy[i].column))
    && (forall i :: 0 <= i < |s.orderByExprs| ==> IsOrderNode(d, s.orderByExprs[i]))
  }

  // --------------------------------------------------- lists of columns

  lemma NamesRow(d: Dialect, names: seq<string>)
    requires NamesRead(d, names)
    ensures ItemsRow(d, LitAll(QualifiedTexts(d, names)), NameTokens(d, names))
    ensures forall i :: 0 <= i < |names| ==> Heading(NameTokens(d, names)[i])
  {
    forall i | 0 <= i < |names|
      ensures ReadsItem(d, LitAll(QualifiedTexts(d, names))[i], NameTokens(d, names)[i])
    {
      NameIsItem(d, names[i]);
    }
  }

  lemma ExprsRow(d: Dialect, ns: seq<Node>)
    requires AreItemNodes(d, ns)
    ensures ItemsRow(d, InlineAll(d, ns), AllTokens(d, ns))
    ensures forall i :: 0 <= i < |ns| ==> Heading(AllTokens(d, ns)[i])
  {
    NodesRead(d, ns);
    ItemsAlign(d, ns);
    forall i | 0 <= i < |ns| ensures Heading(AllTokens(d, ns)[i]) { assert ReadsItem(d, InlineOf(d, ns[i]), TokensOf(d, ns[i])); }
  }

  /** Names, then expressions. */
  lemma ListRow(d: Dialect, names: seq<string>, ns: seq<Node>)
    requires NamesRead(d, names) && AreItemNodes(d, ns)
    ensures
      var tokens := NameTokens(d, names) + AllTokens(d, ns);
      && ItemsRow(d, LitAll(QualifiedTexts(d, names)) + InlineAll(d, ns), tokens)
      && forall i :: 0 <= i < |tokens| ==> Heading(tokens[i])
  {
    NamesRow(d, names);
    ExprsRow(d, ns);
    RowsJoin(d, LitAll(QualifiedTexts(d, names)), NameTokens(d, names), InlineAll(d, ns), AllTokens(d, ns));
  }

  /** A word, then a text. */
  lemma WordThen(d: Dialect, w: string, t: Inline, ts: seq<Token>)
    requires PlainWord(w) && Reads(QuoteChar(d), t, ts)
    ensures Reads(QuoteChar(d), Lit(w + " ") + t, [Word(w)] + ts)
  {
    ReadsWord(d, w);
    ReadsSpaced(QuoteChar(d), Lit(w), [Word(w)], t, ts);
    LitConcat(w, " ");
  }

  lemma NothingBehind(pre: string, t: Inline)
    ensures WrapInline(pre, t, "") == Lit(pre) + t && WrapInline("", t, pre) == t + Lit(pre)
  {
    assert Lit("") == [];
    assert Lit(pre) + t + [] == Lit(pre) + t && [] + t == t;
  }

  lemma TextBehind(pre: string, text: string)
    ensures WrapInline(pre, Lit(text), "") == Lit(pre + text)
  {
    NothingBehind(pre, Lit(text));
    LitConcat(pre, text);
  }

  lemma Regroup(a: string, b: string, t: Inline)
    ensures WrapInline(a + b, t, "") == Lit(a) + (Lit(b) + t)
  {
    LitConcat(a, b);
    NothingBehind(a + b, t);
    assert Lit(a) + Lit(b) + t == Lit(a) + (Lit(b) + t);
  }

  /** A clause of two words. */
  lemma TwoWordsThen(d: Dialect, a: string, b: string, t: Inline, ts: seq<Token>)
    requires PlainWord(a) && PlainWord(b) && Reads(QuoteChar(d), t, ts)
    ensures Reads(QuoteChar(d), WrapInline(a + " " + (b + " "), t, ""), [Word(a)] + ([Word(b)] + ts))
  {
    WordThen(d, b, t, ts);
    WordThen(d, a, Lit(b + " ") + t, [Word(b)] + ts);
    Regroup(a + " ", b + " ", t);
  }

  lemma OneWordThen(d: Dialect, a: string, t: Inline, ts: seq<Token>)
    requires PlainWord(a) && Reads(QuoteChar(d), t, ts)
    ensures Reads(QuoteChar(d), WrapInline(a + " ", t, ""), [Word(a)] + ts)
  {
    WordThen(d, a, t, ts);
    NothingBehind(a + " ", t);
  }

  // --------------------------------------------------- clauses

  lemma AlignedOne(d: Dialect, t: Inline, ts: seq<Token>)
    requires Reads(QuoteChar(d), t, ts)
    ensures Aligned(d, [t], [ts])
  {}

  lemma AlignedJoin(d: Dialect, a: seq<Inline>, x: seq<seq<Token>>, b: seq<Inline>, y: seq<seq<Token>>)
    requires Aligned(d, a, x) && Aligned(d, b, y)
    ensures Aligned(d, a + b, x + y)
  {
    assert |a + b| == |x + y|;
  }

  lemma ListedIsThere(items: seq<seq<Token>>)
    requires items != [] && Heading(items[0])
    ensures Listed(items) != [] && Listed(items)[0] != Word("DISTINCT")
  {}

  /** GROUP BY and ORDER BY. */
  lemma BySection(d: Dialect, word: string, texts: seq<Inline>, tokens: seq<seq<Token>>)
    requires PlainWord(word) && Aligned(d, texts, tokens)
    ensures Aligned(d, SectionInline(word + " " + "BY ", texts, ", "), Opt(word, By(tokens)))
  {
    if texts != [] {
      CommasRead(d, texts, tokens);
      assert "BY" + " " == "BY ";
      TwoWordsThen(d, word, "BY", JoinInline(texts, ", "), Listed(tokens));
      AlignedOne(d, WrapInline(word + " " + "BY ", JoinInline(texts, ", "), ""), [Word(word)] + ([Word("BY")] + Listed(tokens)));
    }
  }

  /** WHERE and HAVING. */
  lemma AndSection(d: Dialect, word: string, ns: seq<Node>)
    requires PlainWord(word) && AreItemNodes(d, ns)
    ensures Aligned(d, SectionInline(word + " ", InlineAll(d, ns), " AND "), Opt(word, JoinedTokens(d, ns, "AND")))
    ensures Item(JoinedTokens(d, ns, "AND"))
  {
    NodesRead(d, ns);
    JoinedIsItem(d, ns, "AND");
    if ns != [] {
      ReadsJoined(d, ns, "AND");
      assert " " + "AND" + " " == " AND ";
      OneWordThen(d, word, JoinInline(InlineAll(d, ns), " AND "), JoinedTokens(d, ns, "AND"));
      AlignedOne(d, WrapInline(word + " ", JoinInline(InlineAll(d, ns), " AND "), ""), [Word(word)] + JoinedTokens(d, ns, "AND"));
    }
  }

  // --------------------------------------------------- tables and joins

  lemma TableReads(d: Dialect, table: string, alias: string)
    ensures Reads(QuoteChar(d), Lit(TableText(d, table, alias)), TableTokens(table, alias)) && Quiet(TableTokens(table, alias))
  {
    LexQuoted(d, table);
    if alias == "" {
      assert Quote(d, table) + "" == Quote(d, table);
      assert [Name(table)] + [] == [Name(table)];
    } else {
      AliasedTableReads(d, table, alias);
    }
  }

  lemma AliasedTableReads(d: Dialect, table: string, alias: string)
    ensures Reads(QuoteChar(d), Lit(Quote(d, table) + (" AS " + Quote(d, alias))), [Name(table)] + ([Word("AS")] + [Name(alias)]))
  {
    LexQuoted(d, table);
    LexQuoted(d, alias);
    WordThen(d, "AS", Lit(Quote(d, alias)), [Name(alias)]);
    ReadsSpaced(QuoteChar(d), Lit(Quote(d, table)), [Name(table)], Lit("AS" + " ") + Lit(Quote(d, alias)), [Word("AS")] + [Name(alias)]);
    LitConcat("AS" + " ", Quote(d, alias));
    LitConcat(Quote(d, table), " ");
    LitConcat(Quote(d, table) + " ", "AS" + " " + Quote(d, alias));
    assert Quote(d, table) + " " + ("AS" + " " + Quote(d, alias)) == Quote(d, table) + (" AS " + Quote(d, alias));
  }

  lemma FromReads(d: Dialect, s: Select)
    ensures Aligned(d, LitAll(FromTexts(d, s)), Opt("FROM", QueryOf(d, s).from)) && Solid(QueryOf(d, s).from)
  {
    if s.table != "" {
      var t := TableText(d, s.table, s.tableAlias);
      TableReads(d, s.table, s.tableAlias);
      WordThen(d, "FROM", Lit(t), TableTokens(s.table, s.tableAlias));
      LitConcat("FROM" + " ", t);
      assert "FROM" + " " == "FROM ";
      QuietIsItem(TableTokens(s.table, s.tableAlias));
      ItemIsSolid(TableTokens(s.table, s.tableAlias));
    } else {
      QuietIsItem([]);
      ItemIsSolid([]);
    }
  }

  lemma SideReads(d: Dialect, side: string)
    requires PlainWord(side)
    ensures Reads(QuoteChar(d), Lit(side + " " + "JOIN"), [Word(side)] + [Word("JOIN")])
  {
    ReadsWord(d, "JOIN");
    WordThen(d, side, Lit("JOIN"), [Word("JOIN")]);
    LitConcat(side + " ", "JOIN");
  }

  lemma FullReads(d: Dialect)
    ensures Reads(QuoteChar(d), Lit("FULL" + " " + ("OUTER" + " " + "JOIN")), [Word("FULL")] + ([Word("OUTER")] + [Word("JOIN")]))
  {
    SideReads(d, "OUTER");
    WordThen(d, "FULL", Lit("OUTER" + " " + "JOIN"), [Word("OUTER")] + [Word("JOIN")]);
    LitConcat("FULL" + " ", "OUTER" + " " + "JOIN");
  }

  lemma KindReads(d: Dialect, kind: string)
    requires kind in JOINS
    ensures Reads(QuoteChar(d), Lit(kind), KindTokens(kind))
  {
    if kind == "FULL OUTER JOIN" {
      FullReads(d);
      assert "FULL" + " " + ("OUTER" + " " + "JOIN") == kind;
    } else {
      var side := if kind == "INNER JOIN" then "INNER" else if kind == "LEFT JOIN" then "LEFT" else "RIGHT";
      SideReads(d, side);
      assert side + " " + "JOIN" == kind;
    }
  }

  lemma KindIsChunk(kind: string, rest: seq<Token>)
    requires kind in JOINS && Item(rest)
    ensures Chunk(KindTokens(kind) + rest, OpensClause) && IsJoin(KindTokens(kind) + rest)
  {
    var ts := KindTokens(kind);
    QuietIsItem(ts[1..]);
    ItemsConcat(ts[1..], rest);
    ItemIsSolid(ts[1..] + rest);
    assert (ts + rest)[1..] == ts[1..] + rest && (ts + rest)[0] == ts[0];
  }

  lemma JoinOnReads(d: Dialect, kind: string, table: string, alias: string, t: Inline, ts: seq<Token>)
    requires kind in JOINS && Reads(QuoteChar(d), t, ts)
    ensures Reads(QuoteChar(d), WrapInline(kind + " " + TableText(d, table, alias) + " ON ", t, ""), KindTokens(kind) + (TableTokens(table, alias) + [Word("ON")] + ts))
  {
    var q, named := QuoteChar(d), TableText(d, table, alias);
    KindReads(d, kind);
    TableReads(d, table, alias);
    ReadsKeyword(d, Lit(named), TableTokens(table, alias), "ON", t, ts);
    ReadsSpaced(q, Lit(kind), KindTokens(kind), Lit(named) + Lit(" " + "ON" + " ") + t, TableTokens(table, alias) + [Word("ON")] + ts);
    JoinOnText(kind, named, t);
  }

  lemma JoinOnText(kind: string, named: string, t: Inline)
    ensures WrapInline(kind + " " + named + " ON ", t, "") == Lit(kind) + Lit(" ") + (Lit(named) + Lit(" " + "ON" + " ") + t)
  {
    assert " " + "ON" + " " == " ON " && Lit("") == [];
    LitConcat(kind, " ");
    LitConcat(kind + " ", named);
    LitConcat(kind + " " + named, " ON ");
  }

  lemma OnIsItem(table: string, alias: string, on: seq<Token>)
    requires Item(on)
    ensures Item(TableTokens(table, alias) + [Word("ON")] + on)
  {
    QuietIsItem(TableTokens(table, alias));
    ItemThenQuiet(TableTokens(table, alias), [Word("ON")]);
    ItemsConcat(TableTokens(table, alias) + [Word("ON")], on);
  }

  lemma CrossJoinReads(d: Dialect, table: string, alias: string)
    ensures Reads(QuoteChar(d), Lit("CROSS JOIN " + TableText(d, table, alias)), [Word("CROSS")] + ([Word("JOIN")] + TableTokens(table, alias)))
  {
    TableReads(d, table, alias);
    TwoWordsThen(d, "CROSS", "JOIN", Lit(TableText(d, table, alias)), TableTokens(table, alias));
    assert "CROSS" + " " + ("JOIN" + " ") == "CROSS JOIN ";
    TextBehind("CROSS JOIN ", TableText(d, table, alias));
  }

  lemma CrossJoinIsChunk(table: string, alias: string)
    ensures Chunk([Word("CROSS")] + ([Word("JOIN")] + TableTokens(table, alias)), OpensClause)
    ensures IsJoin([Word("CROSS")] + ([Word("JOIN")] + TableTokens(table, alias)))
  {
    var rest := [Word("JOIN")] + TableTokens(table, alias);
    QuietIsItem(rest);
    ItemIsSolid(rest);
    assert ([Word("CROSS")] + rest)[1..] == rest;
  }

  lemma JoinReads(d: Dialect, n: Node)
    requires IsJoinNode(d, n)
    ensures Reads(QuoteChar(d), InlineOf(d, n), JoinTokens(d, n))
    ensures Chunk(JoinTokens(d, n), OpensClause) && IsJoin(JoinTokens(d, n))
  {
    match n
    case JoinOn(kind, table, alias, on) =>
      NodeReads(d, on);
      JoinOnReads(d, kind, table, alias, InlineOf(d, on), TokensOf(d, on));
      OnIsItem(table, alias, TokensOf(d, on));
      KindIsChunk(kind, TableTokens(table, alias) + [Word("ON")] + TokensOf(d, on));
    case CrossJoin(table, alias) =>
      CrossJoinReads(d, table, alias);
      CrossJoinIsChunk(table, alias);
  }

  lemma JoinsRead(d: Dialect, ns: seq<Node>)
    requires forall i :: 0 <= i < |ns| ==> IsJoinNode(d, ns[i])
    ensures Aligned(d, InlineAll(d, ns), JoinsOf(d, ns))
    ensures forall i :: 0 <= i < |ns| ==> Chunk(JoinsOf(d, ns)[i], OpensClause) && IsJoin(JoinsOf(d, ns)[i])
  {
    InlineAllAt(d, ns);
    forall i | 0 <= i < |ns|
      ensures Reads(QuoteChar(d), InlineAll(d, ns)[i], JoinsOf(d, ns)[i])
      ensures Chunk(JoinsOf(d, ns)[i], OpensClause) && IsJoin(JoinsOf(d, ns)[i])
    {
      JoinReads(d, ns[i]);
    }
  }

  // --------------------------------------------------- ORDER BY

  function DirectionWord(descending: bool): string {
    if descending then "DESC" else "ASC"
  }

  lemma DirectedReads(d: Dialect, t: Inline, ts: seq<Token>, descending: bool)
    requires Reads(QuoteChar(d), t, ts)
    ensures Reads(QuoteChar(d), t + Lit(Direction(descending)), ts + [Word(DirectionWord(descending))])
  {
    var w := DirectionWord(descending);
    ReadsWord(d, w);
    ReadsSpaced(QuoteChar(d), t, ts, Lit(w), [Word(w)]);
    LitConcat(" ", w);
    assert Direction(descending) == " " + w;
    assert t + Lit(" ") + Lit(w) == t + Lit(" " + w);
  }

  lemma ColumnOrderReads(d: Dialect, order: seq<OrderColumn>)
    requires forall i :: 0 <= i < |order| ==> NameReads(d, order[i].column)
    ensures Aligned(d, LitAll(OrderTexts(d, order)), Directed(ColumnOrder(d, order)))
    ensures forall i :: 0 <= i < |order| ==> Item(ColumnOrder(d, order)[i].0)
  {
    forall i | 0 <= i < |order|
      ensures Reads(QuoteChar(d), LitAll(OrderTexts(d, order))[i], Directed(ColumnOrder(d, order))[i])
      ensures Item(ColumnOrder(d, order)[i].0)
    {
      NameIsItem(d, order[i].column);
      DirectedReads(d, Lit(QuoteQualified(d, order[i].column)), ColumnTokens(d, order[i].column), order[i].descending);
      LitConcat(QuoteQualified(d, order[i].column), Direction(order[i].descending));
    }
  }

  lemma NodeOrderReads(d: Dialect, ns: seq<Node>)
    requires forall i :: 0 <= i < |ns| ==> IsOrderNode(d, ns[i])
    ensures Aligned(d, InlineAll(d, ns), Directed(NodeOrder(d, ns)))
    ensures forall i :: 0 <= i < |ns| ==> Item(NodeOrder(d, ns)[i].0)
  {
    InlineAllAt(d, ns);
    forall i | 0 <= i < |ns|
      ensures Reads(QuoteChar(d), InlineAll(d, ns)[i], Directed(NodeOrder(d, ns))[i])
      ensures Item(NodeOrder(d, ns)[i].0)
    {
      OrderedReads(d, ns[i].expr, ns[i].descending);
    }
  }

  lemma OrderedInline(d: Dialect, expr: Node, descending: bool)
    ensures InlineOf(d, Ordered(expr, descending)) == InlineOf(d, expr) + Lit(Direction(descending))
  {
    NothingBehind(Direction(descending), InlineOf(d, expr));
  }

  lemma OrderedReads(d: Dialect, expr: Node, descending: bool)
    requires IsItemNode(d, expr)
    ensures Reads(QuoteChar(d), InlineOf(d, Ordered(expr, descending)), TokensOf(d, expr) + [Word(DirectionWord(descending))])
    ensures Item(TokensOf(d, expr))
  {
    NodeReads(d, expr);
    DirectedReads(d, InlineOf(d, expr), TokensOf(d, expr), descending);
    OrderedInline(d, expr, descending);
  }

  lemma OrderReads(d: Dialect, order: seq<OrderColumn>, ns: seq<Node>)
    requires (forall i :: 0 <= i < |order| ==> NameReads(d, order[i].column)) && forall i :: 0 <= i < |ns| ==> IsOrderNode(d, ns[i])
    ensures
      var pairs := ColumnOrder(d, order) + NodeOrder(d, ns);
      && Aligned(d, LitAll(OrderTexts(d, order)) + InlineAll(d, ns), Directed(pairs))
      && forall i :: 0 <= i < |pairs| ==> Item(pairs[i].0)
  {
    var x, y := ColumnOrder(d, order), NodeOrder(d, ns);
    ColumnOrderReads(d, order);
    NodeOrderReads(d, ns);
    AlignedJoin(d, LitAll(OrderTexts(d, order)), Directed(x), InlineAll(d, ns), Directed(y));
    PairsJoin(x, y);
  }

  lemma PairsJoin(x: seq<(seq<Token>, bool)>, y: seq<(seq<Token>, bool)>)
    requires (forall i :: 0 <= i < |x| ==> Item(x[i].0)) && forall i :: 0 <= i < |y| ==> Item(y[i].0)
    ensures Directed(x + y) == Directed(x) + Directed(y) && forall i :: 0 <= i < |x + y| ==> Item((x + y)[i].0)
  {}

  // --------------------------------------------------- LIMIT and OFFSET

  lemma NumeralReads(d: Dialect, word: string, n: nat)
    requires PlainWord(word)
    ensures Reads(QuoteChar(d), Lit(word + " " + Decimal(n)), [Word(word)] + [Word(Decimal(n))])
  {
    assert PlainWord(Decimal(n)) by { assert AllDigits(Decimal(n)); NumberOfDecimal(n); }
    ReadsWord(d, Decimal(n));
    WordThen(d, word, Lit(Decimal(n)), [Word(Decimal(n))]);
    LitConcat(word + " ", Decimal(n));
  }

  lemma OneText(d: Dialect, text: string, tokens: seq<seq<Token>>)
    requires text != "" && tokens != [] && Reads(QuoteChar(d), Lit(text), Flat(tokens))
    ensures Aligned(d, LitAll([text]), [Flat(tokens)])
  {
    assert LitAll([text]) == [Lit(text)];
  }

  /** The last clauses: LIMIT and OFFSET, each there exactly when its number is
      positive. */
  lemma LimitReads(d: Dialect, s: Select)
    ensures
      var tokens := Opt("LIMIT", Numeral(Positive(s.limit))) + Opt("OFFSET", Numeral(Positive(s.offset)));
      Aligned(d, LitAll(LimitTexts(s)), if tokens == [] then [] else [Flat(tokens)])
  {
    var limit, offset := s.limit, s.offset;
    var tokens := Opt("LIMIT", Numeral(Positive(limit))) + Opt("OFFSET", Numeral(Positive(offset)));
    assert "LIMIT" + " " == "LIMIT " && "OFFSET" + " " == "OFFSET ";
    if limit > 0 && offset > 0 {
      var x, y := [Word("LIMIT")] + [Word(Decimal(limit))], [Word("OFFSET")] + [Word(Decimal(offset))];
      BothNumerals(d, limit, offset);
      FlatConcat([x], [y]);
      FlatOfOne(x);
      FlatOfOne(y);
      assert tokens == [x] + [y];
      OneText(d, LimitOffset(limit, offset), tokens);
    } else if limit > 0 {
      NumeralReads(d, "LIMIT", limit);
      FlatOfOne([Word("LIMIT")] + [Word(Decimal(limit))]);
      assert tokens == [[Word("LIMIT")] + [Word(Decimal(limit))]];
      OneText(d, LimitOffset(limit, offset), tokens);
    } else if offset > 0 {
      NumeralReads(d, "OFFSET", offset);
      FlatOfOne([Word("OFFSET")] + [Word(Decimal(offset))]);
      assert tokens == [[Word("OFFSET")] + [Word(Decimal(offset))]];
      OneText(d, LimitOffset(limit, offset), tokens);
    }
  }

  lemma SpaceMoves(a: string, word: string, digits: string)
    ensures a + " " + (word + digits) == a + (" " + word) + digits
  {}

  lemma BothNumerals(d: Dialect, limit: nat, offset: nat)
    ensures Reads(QuoteChar(d), Lit("LIMIT " + Decimal(limit) + " OFFSET " + Decimal(offset)),
                  [Word("LIMIT")] + [Word(Decimal(limit))] + ([Word("OFFSET")] + [Word(Decimal(offset))]))
  {
    var a, b := "LIMIT " + Decimal(limit), "OFFSET " + Decimal(offset);
    NumeralReads(d, "LIMIT", limit);
    NumeralReads(d, "OFFSET", offset);
    assert "LIMIT" + " " == "LIMIT " && "OFFSET" + " " == "OFFSET ";
    ReadsSpaced(QuoteChar(d), Lit(a), [Word("LIMIT")] + [Word(Decimal(limit))], Lit(b), [Word("OFFSET")] + [Word(Decimal(offset))]);
    LitConcat(a, " ");
    LitConcat(a + " ", b);
    SpaceMoves(a, "OFFSET ", Decimal(offset));
    assert " " + "OFFSET " == " OFFSET ";
  }

  // --------------------------------------------------- the whole statement

  lemma SelectWordsRead(d: Dialect, distinct: bool, t: Inline, ts: seq<Token>)
    requires Reads(QuoteChar(d), t, ts)
    ensures Reads(QuoteChar(d), WrapInline((if distinct then "SELECT DISTINCT" else "SELECT") + " ", t, ""),
                  [Word("SELECT")] + (if distinct then [Word("DISTINCT")] else []) + ts)
  {
    if distinct {
      TwoWordsThen(d, "SELECT", "DISTINCT", t, ts);
      assert "SELECT" + " " + ("DISTINCT" + " ") == "SELECT DISTINCT" + " ";
      assert [Word("SELECT")] + ([Word("DISTINCT")] + ts) == [Word("SELECT")] + [Word("DISTINCT")] + ts;
    } else {
      OneWordThen(d, "SELECT", t, ts);
      assert [Word("SELECT")] + [] + ts == [Word("SELECT")] + ts;
    }
  }

  lemma ListHeadReads(d: Dialect, distinct: bool, texts: seq<Inline>, items: seq<seq<Token>>)
    requires texts != [] && ItemsRow(d, texts, items) && Heading(items[0])
    ensures Aligned(d, SectionInline((if distinct then "SELECT DISTINCT" else "SELECT") + " ", texts, ", "),
                    [[Word("SELECT")] + (if distinct then [Word("DISTINCT")] else []) + Listed(items)])
    ensures ColumnsFit(items)
  {
    CommasRead(d, texts, items);
    SelectWordsRead(d, distinct, JoinInline(texts, ", "), Listed(items));
    ListedIsThere(items);
    AlignedOne(d, WrapInline((if distinct then "SELECT DISTINCT" else "SELECT") + " ", JoinInline(texts, ", "), ""),
               [Word("SELECT")] + (if distinct then [Word("DISTINCT")] else []) + Listed(items));
  }

  lemma HeadReads(d: Dialect, s: Select)
    requires IsReadable(d, s)
    ensures Aligned(d, HeadInline(d, s, InlineAll(d, s.columnExprs)), [HeadOf(QueryOf(d, s))])
    ensures ColumnsFit(QueryOf(d, s).columns)
  {
    var selected := LitAll(QualifiedTexts(d, s.columns)) + InlineAll(d, s.columnExprs);
    ListRow(d, s.columns, s.columnExprs);
    if selected == [] {
      assert |s.columns| == 0 && |s.columnExprs| == 0;
      StarReads(d, s.distinct);
      StarFits();
      AlignedOne(d, Lit(SelectKeyword(s) + " *"), HeadOf(QueryOf(d, s)));
    } else {
      assert |selected| == |s.columns| + |s.columnExprs|;
      ListHeadReads(d, s.distinct, selected, QueryOf(d, s).columns);
    }
  }

  lemma StarFits()
    ensures ColumnsFit([[Word("*")]])
  {
    QuietIsItem([Word("*")]);
  }

  lemma StarReads(d: Dialect, distinct: bool)
    ensures
      var keyword := if distinct then "SELECT DISTINCT" else "SELECT";
      Reads(QuoteChar(d), Lit(keyword + " *"), [Word("SELECT")] + (if distinct then [Word("DISTINCT")] else []) + [Word("*")])
  {
    var keyword := if distinct then "SELECT DISTINCT" else "SELECT";
    ReadsWord(d, "*");
    SelectWordsRead(d, distinct, Lit("*"), [Word("*")]);
    TextBehind(keyword + " ", "*");
    assert keyword + " " + "*" == keyword + " *";
  }

  predicate ColumnsFit(items: seq<seq<Token>>) {
    items != [] && (forall i :: 0 <= i < |items| ==> Item(items[i])) && Listed(items) != [] && Listed(items)[0] != Word("DISTINCT")
  }

  lemma QueryIsReadable(d: Dialect, s: Select)
    requires IsReadable(d, s)
    ensures Readable(QueryOf(d, s))
  {
    HeadReads(d, s);
    FromReads(d, s);
    JoinsRead(d, s.joins);
    AndSection(d, "WHERE", s.conditions);
    ItemIsSolid(JoinedTokens(d, s.conditions, "AND"));
    ListRow(d, s.groupBy, s.groupByExprs);
    AndSection(d, "HAVING", s.having);
    ItemIsSolid(JoinedTokens(d, s.having, "AND"));
    OrderReads(d, s.orderBy, s.orderByExprs);
  }

  lemma EightAligned(d: Dialect, h: seq<Inline>, hs: seq<seq<Token>>, f: seq<Inline>, fs: seq<seq<Token>>, j: seq<Inline>, js: seq<seq<Token>>,
                     w: seq<Inline>, ws: seq<seq<Token>>, g: seq<Inline>, gs: seq<seq<Token>>, v: seq<Inline>, vs: seq<seq<Token>>,
                     o: seq<Inline>, os: seq<seq<Token>>, l: seq<Inline>, ls: seq<seq<Token>>)
    requires Aligned(d, h, hs) && Aligned(d, f, fs) && Aligned(d, j, js) && Aligned(d, w, ws)
    requires Aligned(d, g, gs) && Aligned(d, v, vs) && Aligned(d, o, os) && Aligned(d, l, ls)
    ensures Aligned(d, h + f + j + w + g + v + o + l, hs + fs + js + ws + gs + vs + os + ls)
  {
    AlignedJoin(d, h, hs, f, fs);
    AlignedJoin(d, h + f, hs + fs, j, js);
    AlignedJoin(d, h + f + j, hs + fs + js, w, ws);
    AlignedJoin(d, h + f + j + w, hs + fs + js + ws, g, gs);
    AlignedJoin(d, h + f + j + w + g, hs + fs + js + ws + gs, v, vs);
    AlignedJoin(d, h + f + j + w + g + v, hs + fs + js + ws + gs + vs, o, os);
    AlignedJoin(d, h + f + j + w + g + v + o, hs + fs + js + ws + gs + vs + os, l, ls);
  }

  /** The clauses up to ORDER BY. */
  function UpToOrder(p: Query): seq<seq<Token>> {
    Opt("FROM", p.from) + p.joins + Opt("WHERE", p.conditions) + Opt("GROUP", By(p.groups)) + Opt("HAVING", p.having)
    + Opt("ORDER", By(Directed(p.order)))
  }

  function Tail(p: Query): seq<seq<Token>> {
    Opt("LIMIT", Numeral(p.limit)) + Opt("OFFSET", Numeral(p.offset))
  }

  function TailPiece(p: Query): seq<seq<Token>> {
    if Tail(p) == [] then [] else [Flat(Tail(p))]
  }

  lemma FirstClausesRead(d: Dialect, s: Select)
    requires IsReadable(d, s)
    ensures
      var p := QueryOf(d, s);
      && Aligned(d, HeadInline(d, s, InlineAll(d, s.columnExprs)), [HeadOf(p)]) && Aligned(d, LitAll(FromTexts(d, s)), Opt("FROM", p.from))
      && Aligned(d, InlineAll(d, s.joins), p.joins) && Aligned(d, SectionInline("WHERE ", InlineAll(d, s.conditions), " AND "), Opt("WHERE", p.conditions))
  {
    HeadReads(d, s);
    FromReads(d, s);
    JoinsRead(d, s.joins);
    AndSection(d, "WHERE", s.conditions);
    assert "WHERE" + " " == "WHERE ";
  }

  lemma GroupClauseReads(d: Dialect, names: seq<string>, ns: seq<Node>)
    requires NamesRead(d, names) && AreItemNodes(d, ns)
    ensures Aligned(d, SectionInline("GROUP BY ", LitAll(QualifiedTexts(d, names)) + InlineAll(d, ns), ", "),
                    Opt("GROUP", By(NameTokens(d, names) + AllTokens(d, ns))))
  {
    ListRow(d, names, ns);
    assert "GROUP" + " " + "BY " == "GROUP BY ";
    BySection(d, "GROUP", LitAll(QualifiedTexts(d, names)) + InlineAll(d, ns), NameTokens(d, names) + AllTokens(d, ns));
  }

  lemma OrderClauseReads(d: Dialect, order: seq<OrderColumn>, ns: seq<Node>)
    requires (forall i :: 0 <= i < |order| ==> NameReads(d, order[i].column)) && forall i :: 0 <= i < |ns| ==> IsOrderNode(d, ns[i])
    ensures Aligned(d, SectionInline("ORDER BY ", LitAll(OrderTexts(d, order)) + InlineAll(d, ns), ", "),
                    Opt("ORDER", By(Directed(ColumnOrder(d, order) + NodeOrder(d, ns)))))
  {
    OrderReads(d, order, ns);
    assert "ORDER" + " " + "BY " == "ORDER BY ";
    BySection(d, "ORDER", LitAll(OrderTexts(d, order)) + InlineAll(d, ns), Directed(ColumnOrder(d, order) + NodeOrder(d, ns)));
  }

  lemma LastClausesRead(d: Dialect, s: Select)
    requires IsReadable(d, s)
    ensures
      var p := QueryOf(d, s);
      && Aligned(d, SectionInline("GROUP BY ", LitAll(QualifiedTexts(d, s.groupBy)) + InlineAll(d, s.groupByExprs), ", "), Opt("GROUP", By(p.groups)))
      && Aligned(d, SectionInline("HAVING ", InlineAll(d, s.having), " AND "), Opt("HAVING", p.having))
      && Aligned(d, SectionInline("ORDER BY ", LitAll(OrderTexts(d, s.orderBy)) + InlineAll(d, s.orderByExprs), ", "), Opt("ORDER", By(Directed(p.order))))
      && Aligned(d, LitAll(LimitTexts(s)), TailPiece(p))
  {
    GroupClauseReads(d, s.groupBy, s.groupByExprs);
    AndSection(d, "HAVING", s.having);
    assert "HAVING" + " " == "HAVING ";
    OrderClauseReads(d, s.orderBy, s.orderByExprs);
    LimitReads(d, s);
  }

  lemma Moved(a: seq<seq<Token>>, b: seq<seq<Token>>, c: seq<seq<Token>>)
    ensures a + (b + c) == a + b + c
  {}

  lemma RowOfSix(h: seq<seq<Token>>, f: seq<seq<Token>>, j: seq<seq<Token>>, w: seq<seq<Token>>, g: seq<seq<Token>>, v: seq<seq<Token>>, o: seq<seq<Token>>)
    ensures h + f + j + w + g + v + o == h + (f + j + w + g + v + o)
  {
    Moved(h, f, j);
    Moved(h, f + j, w);
    Moved(h, f + j + w, g);
    Moved(h, f + j + w + g, v);
    Moved(h, f + j + w + g + v, o);
  }

  lemma InOneRow(head: seq<Token>, p: Query)
    ensures [head] + Opt("FROM", p.from) + p.joins + Opt("WHERE", p.conditions) + Opt("GROUP", By(p.groups)) + Opt("HAVING", p.having)
            + Opt("ORDER", By(Directed(p.order))) + TailPiece(p) == [head] + UpToOrder(p) + TailPiece(p)
    ensures UpToOrder(p) + Tail(p) == Spelled(p)
  {
    RowOfSix([head], Opt("FROM", p.from), p.joins, Opt("WHERE", p.conditions), Opt("GROUP", By(p.groups)), Opt("HAVING", p.having),
             Opt("ORDER", By(Directed(p.order))));
    Moved(UpToOrder(p), Opt("LIMIT", Numeral(p.limit)), Opt("OFFSET", Numeral(p.offset)));
  }

  /** The statement's texts and their tokens, clause by clause. */
  lemma ClausesRead(d: Dialect, s: Select, p: Query)
    requires IsReadable(d, s) && p == QueryOf(d, s)
    ensures
      Aligned(d, StatementInline(d, s, InlineAll(d, s.columnExprs), InlineAll(d, s.joins), InlineAll(d, s.conditions),
                                 InlineAll(d, s.groupByExprs), InlineAll(d, s.having), InlineAll(d, s.orderByExprs)),
              [HeadOf(p)] + UpToOrder(p) + TailPiece(p))
  {
    FirstClausesRead(d, s);
    LastClausesRead(d, s);
    StatementInPieces(d, s, InlineAll(d, s.columnExprs), InlineAll(d, s.joins), InlineAll(d, s.conditions),
                      InlineAll(d, s.groupByExprs), InlineAll(d, s.having), InlineAll(d, s.orderByExprs));
    EightAligned(d, HeadInline(d, s, InlineAll(d, s.columnExprs)), [HeadOf(p)], LitAll(FromTexts(d, s)), Opt("FROM", p.from),
                 InlineAll(d, s.joins), p.joins, SectionInline("WHERE ", InlineAll(d, s.conditions), " AND "), Opt("WHERE", p.conditions),
                 SectionInline("GROUP BY ", LitAll(QualifiedTexts(d, s.groupBy)) + InlineAll(d, s.groupByExprs), ", "), Opt("GROUP", By(p.groups)),
                 SectionInline("HAVING ", InlineAll(d, s.having), " AND "), Opt("HAVING", p.having),
                 SectionInline("ORDER BY ", LitAll(OrderTexts(d, s.orderBy)) + InlineAll(d, s.orderByExprs), ", "), Opt("ORDER", By(Directed(p.order))),
                 LitAll(LimitTexts(s)), TailPiece(p));
    InOneRow(HeadOf(p), p);
  }

  lemma FlatPieces(head: seq<Token>, p: Query)
    ensures Flat([head] + UpToOrder(p) + TailPiece(p)) == head + Flat(Spelled(p))
  {
    FlatRow(head, UpToOrder(p), TailPiece(p));
    FlatConcat(UpToOrder(p), Tail(p));
    if Tail(p) != [] { FlatOfOne(Flat(Tail(p))); }
    InOneRow(head, p);
  }

  lemma FlatRow(head: seq<Token>, middle: seq<seq<Token>>, last: seq<seq<Token>>)
    ensures Flat([head] + middle + last) == head + (Flat(middle) + Flat(last))
  {
    assert ([head] + middle + last)[1..] == middle + last;
    FlatConcat(middle, last);
  }

  /** The statement's tokens are the query's, as SQL spells them. */
  lemma StatementIsSpelled(d: Dialect, s: Select, p: Query)
    requires IsReadable(d, s) && p == QueryOf(d, s)
    ensures Reads(QuoteChar(d), InlineSelect(d, s), HeadOf(p) + Flat(Spelled(p)))
  {
    ClausesRead(d, s, p);
    BlanksRead(d, StatementInline(d, s, InlineAll(d, s.columnExprs), InlineAll(d, s.joins), InlineAll(d, s.conditions),
                                  InlineAll(d, s.groupByExprs), InlineAll(d, s.having), InlineAll(d, s.orderByExprs)),
               [HeadOf(p)] + UpToOrder(p) + TailPiece(p));
    FlatPieces(HeadOf(p), p);
  }

  // --------------------------------------------------- main results

  /** The tokens of a text with its arguments, as each database reads it: where
      placeholders have numbers, and what a name is quoted with. */
  function DatabaseReads(d: Dialect, sql: string, args: seq<Value>): Option<seq<Token>> {
    match d
    case Postgres => TokensIn('"', BindNumbered(sql, args, 1))
    case MySQL => TokensIn('`', BindInOrder(sql, args))
    case SQLite => TokensIn('"', BindInOrder(sql, args))
  }

  function TokensIn(q: char, t: Option<Inline>): Option<seq<Token>> {
    if t.None? then None else Lex(q, t.value)
  }

  lemma DatabaseReadsInline(d: Dialect, sql: string, args: seq<Value>, t: Inline, ts: seq<Token>)
    requires Bind(d, sql, args, 1) == Some(t) && Reads(QuoteChar(d), t, ts)
    ensures DatabaseReads(d, sql, args) == Some(ts)
  {}

  /** What a statement's text with its arguments asks a database for. */
  function Asks(d: Dialect, sql: string, args: seq<Value>): Option<Query> {
    match DatabaseReads(d, sql, args) case None => None case Some(ts) => ReadSelect(ts)
  }

  /** The inline statement of a SELECT is read as what its builder holds. */
  lemma StatementReads(d: Dialect, s: Select)
    requires IsReadable(d, s)
    ensures Lex(QuoteChar(d), InlineSelect(d, s)).Some?
    ensures ReadSelect(Lex(QuoteChar(d), InlineSelect(d, s)).value) == Some(QueryOf(d, s))
  {
    StatementIsSpelled(d, s, QueryOf(d, s));
    QueryIsReadable(d, s);
    SpelledReadsBack(QueryOf(d, s));
  }

  /** Main result: a database that reads a built SELECT with its arguments is
      asked for the columns, tables, conditions, groups, order, number of rows
      and rows to skip that the builder holds. */
  lemma BuiltSelectAsks(d: Dialect, s: Select)
    requires TidySelect(s) && IsReadable(d, s) && SelectError(s).None?
    ensures
      var b := Build(d, s);
      b.Built? && Asks(d, b.sql, b.args) == Some(QueryOf(d, s))
  {
    QueryNumbering.BuiltSelectReadsAsInline(d, s);
    StatementReads(d, s);
    var b := Build(d, s);
    DatabaseReadsInline(d, b.sql, b.args, InlineSelect(d, s), Lex(QuoteChar(d), InlineSelect(d, s)).value);
  }

  lemma AskedIs(d: Dialect, s: Select, asked: Query)
    requires TidySelect(s) && IsReadable(d, s) && SelectError(s).None?
    requires Asks(d, Build(d, s).sql, Build(d, s).args) == Some(asked)
    ensures asked == QueryOf(d, s)
  {
    BuiltSelectAsks(d, s);
  }

  /** What is asked for, in the builder's own numbers and names. */
  ghost predicate AsksTheSame(d: Dialect, s: Select, asked: Query) {
    && asked.limit == (if s.limit > 0 then Some(s.limit) else None) && asked.offset == (if s.offset > 0 then Some(s.offset) else None)
    && asked.distinct == s.distinct && |asked.order| == |s.orderBy| + |s.orderByExprs|
    && (forall i :: 0 <= i < |s.orderBy| ==> asked.order[i] == (ColumnTokens(d, s.orderBy[i].column), s.orderBy[i].descending))
    && (forall i :: 0 <= i < |s.orderByExprs| ==>
          s.orderByExprs[i].Ordered? && asked.order[|s.orderBy| + i] == (TokensOf(d, s.orderByExprs[i].expr), s.orderByExprs[i].descending))
  }

  /** Its last clauses: the rows wanted and the rows skipped, each there exactly
      when its number is positive; DISTINCT; what is ordered by, in which
      direction. */
  lemma LimitAndOffsetAsked(d: Dialect, s: Select, asked: Query)
    requires TidySelect(s) && IsReadable(d, s) && SelectError(s).None?
    requires Asks(d, Build(d, s).sql, Build(d, s).args) == Some(asked)
    ensures AsksTheSame(d, s, asked)
  {
    AskedIs(d, s, asked);
    QueryAsksTheSame(d, s, asked);
  }

  lemma QueryAsksTheSame(d: Dialect, s: Select, p: Query)
    requires IsReadable(d, s) && p == QueryOf(d, s)
    ensures AsksTheSame(d, s, p)
  {
    OrderNodesOrder(d, s);
    OrderOf(d, s.orderBy, s.orderByExprs);
  }

  lemma OrderNodesOrder(d: Dialect, s: Select)
    requires IsReadable(d, s)
    ensures forall i :: 0 <= i < |s.orderByExprs| ==> s.orderByExprs[i].Ordered?
  {
    forall i | 0 <= i < |s.orderByExprs| ensures s.orderByExprs[i].Ordered? { assert IsOrderNode(d, s.orderByExprs[i]); }
  }

  lemma OrderOf(d: Dialect, columns: seq<OrderColumn>, ns: seq<Node>)
    requires forall i :: 0 <= i < |ns| ==> ns[i].Ordered?
    ensures
      var order := ColumnOrder(d, columns) + NodeOrder(d, ns);
      && |order| == |columns| + |ns|
      && (forall i :: 0 <= i < |columns| ==> order[i] == (ColumnTokens(d, columns[i].column), columns[i].descending))
      && (forall i :: 0 <= i < |ns| ==> order[|columns| + i] == (TokensOf(d, ns[i].expr), ns[i].descending))
  {}

  /** The rows a built SELECT keeps are those on which all conditions of its
      builder hold. */
  lemma WhereMeansAll(d: Dialect, s: Select, asked: Query, env: seq<Token> -> Truth)
    requires TidySelect(s) && IsReadable(d, s) && SelectError(s).None?
    requires Asks(d, Build(d, s).sql, Build(d, s).args) == Some(asked)
    requires s.conditions != [] && AreConditions(d, s.conditions) && Valuation(env)
    ensures ParseOr(asked.conditions).Parsed? && ParseOr(asked.conditions).rest == []
    ensures Eval(ParseOr(asked.conditions).f, env) == All(d, s.conditions, env)
  {
    AskedIs(d, s, asked);
    JoinedMeansAll(d, s.conditions, env);
  }

  lemma JoinedMeansAll(d: Dialect, ns: seq<Node>, env: seq<Token> -> Truth)
    requires ns != [] && AreConditions(d, ns) && Valuation(env)
    ensures
      var parsed := ParseOr(JoinedTokens(d, ns, "AND"));
      parsed.Parsed? && parsed.rest == [] && Eval(parsed.f, env) == All(d, ns, env)
  {
    AllStandAlone(d, ns);
    var ts := JoinedTokens(d, ns, "AND");
    assert ts + [] == ts;
    AndListIsFormula(d, ns, []);
    ShapesMeanTheLists(d, ns, env);
  }
}
