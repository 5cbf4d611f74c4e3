/** Placeholder numbering of whole query trees.

    `InlineOf` is the statement a tree stands for: its text with every value
    written in place. It mentions no counter, no argument list and no
    renumbering. The theorem says that rendering from any counter, nested
    subqueries and all, prints exactly that statement: placeholders p..next - 1
    once each from left to right, the k-th bound to the k-th argument, so that
    a database reading the text with its arguments reads the inline statement.
 */
module QueryMeaning {
  import opened SqlText
  import opened QueryTree

  // --------------------------------------------------- inline pieces

  function WrapInline(pre: string, t: Inline, post: string): Inline {
    Lit(pre) + t + Lit(post)
  }

  function JoinInline(ts: seq<Inline>, sep: string): Inline {
    if |ts| == 0 then []
    else if |ts| == 1 then ts[0]
    else ts[0] + Lit(sep) + JoinInline(ts[1..], sep)
  }

  function SectionInline(keyword: string, ts: seq<Inline>, sep: string): seq<Inline> {
    if ts == [] then [] else [WrapInline(keyword, JoinInline(ts, sep), "")]
  }

  function LitAll(parts: seq<string>): seq<Inline> {
    seq(|parts|, i requires 0 <= i < |parts| => Lit(parts[i]))
  }

  function ValAll(values: seq<Value>): seq<Inline> {
    seq(|values|, i requires 0 <= i < |values| => [Val(values[i])])
  }

  /** A raw fragment with its arguments written for its question marks. */
  function RawInline(sql: string, args: seq<Value>): Inline {
    if sql == "" then []
    else if sql[0] == '?' && args != [] then [Val(args[0])] + RawInline(sql[1..], args[1..])
    else [Chr(sql[0])] + RawInline(sql[1..], args)
  }

  // --------------------------------------------------- the inline statement

  function InlineOf(d: Dialect, n: Node): Inline
    decreases n
  {
    match n
    case Invalid(_) => []
    case Comparison(column, operator, value) => Lit(QuoteQualified(d, column) + " " + operator + " ") + [Val(value)]
    case ILike(column, pattern) =>
      if d.Postgres? then Lit(QuoteQualified(d, column) + " ILIKE ") + [Val(StringValue(pattern))]
      else WrapInline("LOWER(" + QuoteQualified(d, column) + ") LIKE LOWER(", [Val(StringValue(pattern))], ")")
    case NullTest(column, isNull) => Lit(QuoteQualified(d, column) + if isNull then " IS NULL" else " IS NOT NULL")
    case InList(column, values, notIn) =>
      if values == [] then Lit(if notIn then "1=1" else "1=0")
      else WrapInline(QuoteQualified(d, column) + InOpen(notIn), JoinInline(ValAll(values), ", "), ")")
    case Between(column, start, end) =>
      WrapInline(QuoteQualified(d, column) + " BETWEEN ", JoinInline(ValAll([start, end]), " AND "), "")
    case Logical(operator, conditions) =>
      if |conditions| == 0 then Lit("1=1")
      else if |conditions| == 1 then InlineOf(d, conditions[0])
      else WrapInline("(", JoinInline(InlineAll(d, conditions), " " + operator + " "), ")")
    case Not(condition) => WrapInline("NOT (", InlineOf(d, condition), ")")
    case Raw(sql, args) => RawInline(sql, args)
    case ColumnComparison(col1, operator, col2) => Lit(QuoteQualified(d, col1) + " " + operator + " " + QuoteQualified(d, col2))
    case InSubquery(column, subquery, negate) =>
      if SelectError(subquery).Some? then Lit(InSubqueryError(column, SelectError(subquery).value))
      else WrapInline(Quote(d, column) + InOpen(negate), InlineSelect(d, subquery), ")")
    case Exists(subquery, negate) =>
      if SelectError(subquery).Some? then Lit(ExistsError(negate, SelectError(subquery).value))
      else WrapInline(ExistsOpen(negate), InlineSelect(d, subquery), ")")
    case Column(name) => Lit(Quote(d, name))
    case Literal(value) => [Val(value)]
    case Keyword(text) => Lit(text)
    case Call(open, operands) => WrapInline(open, JoinInline(InlineAll(d, operands), ", "), ")")
    case Alias(expr, alias) => WrapInline("", InlineOf(d, expr), " AS " + Quote(d, alias))
    case Case(operand, whens, otherwise) =>
      var head := if operand.Some? then WrapInline("CASE ", InlineOf(d, operand.value), "") else Lit("CASE");
      var tail := if otherwise.Some? then [WrapInline("ELSE ", InlineOf(d, otherwise.value), "")] else [];
      JoinInline([head] + InlineAll(d, whens) + tail + LitAll(["END"]), " ")
    case Over(call, window) => WrapInline("", JoinInline([InlineOf(d, call)] + [InlineOf(d, window)], " OVER ("), ")")
    case When(test, result) => WrapInline("WHEN ", JoinInline([InlineOf(d, test)] + [InlineOf(d, result)], " THEN "), "")
    case Window(partitionBy, orderBy, frame) =>
      JoinInline(SectionInline("PARTITION BY ", InlineAll(d, partitionBy), ", ")
                 + SectionInline("ORDER BY ", InlineAll(d, orderBy), ", ")
                 + LitAll(if frame == "" then [] else [frame]), " ")
    case Ordered(expr, descending) => WrapInline("", InlineOf(d, expr), Direction(descending))
    case JoinOn(kind, table, alias, on) => WrapInline(kind + " " + TableText(d, table, alias) + " ON ", InlineOf(d, on), "")
    case CrossJoin(table, alias) => Lit("CROSS JOIN " + TableText(d, table, alias))
  }

  function InlineAll(d: Dialect, ns: seq<Node>): (ts: seq<Inline>)
    ensures |ts| == |ns|
    decreases ns
  {
    if ns == [] then [] else [InlineOf(d, ns[0])] + InlineAll(d, ns[1..])
  }

  function InlineSelect(d: Dialect, s: Select): Inline
    decreases s
  {
    JoinInline(StatementInline(d, s, InlineAll(d, s.columnExprs), InlineAll(d, s.joins), InlineAll(d, s.conditions),
                               InlineAll(d, s.groupByExprs), InlineAll(d, s.having), InlineAll(d, s.orderByExprs)), " ")
  }

  function StatementInline(d: Dialect, s: Select, columns: seq<Inline>, joins: seq<Inline>, conditions: seq<Inline>,
                           groups: seq<Inline>, having: seq<Inline>, order: seq<Inline>): seq<Inline> {
    var selected := LitAll(QualifiedTexts(d, s.columns)) + columns;
    var head :=
      if selected == [] then LitAll([SelectKeyword(s) + " *"])
      else SectionInline(SelectKeyword(s) + " ", selected, ", ");
    var a := head + LitAll(FromTexts(d, s)) + joins;
    var b := a + SectionInline("WHERE ", conditions, " AND ");
    var c := b + SectionInline("GROUP BY ", LitAll(QualifiedTexts(d, s.groupBy)) + groups, ", ");
    var e := c + SectionInline("HAVING ", having, " AND ");
    var f := e + SectionInline("ORDER BY ", LitAll(OrderTexts(d, s.orderBy)) + order, ", ");
    f + LitAll(LimitTexts(s))
  }

  // --------------------------------------------------- what callers must keep to

  function QuestionMarks(sql: string): nat {
    if sql == "" then 0 else (if sql[0] == '?' then 1 else 0) + QuestionMarks(sql[1..])
  }

  /** A raw fragment has no `$`, one argument per `?`, and no digit straight
      after a `?`. */
  predicate TidyRaw(sql: string, args: seq<Value>) {
    && QuestionMarks(sql) == |args|
    && (forall i :: 0 <= i < |sql| ==> sql[i] != '$')
    && (forall i :: 0 <= i < |sql| - 1 && sql[i] == '?' ==> !IsDigit(sql[i + 1]))
  }

  predicate AllPlain(names: seq<string>) {
    forall i :: 0 <= i < |names| ==> Plain(names[i])
  }

  /** No name, operator or error text holds a placeholder character, and every
      raw fragment is tidy. */
  predicate Tidy(n: Node)
    decreases n
  {
    match n
    case Invalid(err) => Plain(err)
    case Comparison(column, operator, _) => Plain(column) && Plain(operator)
    case ILike(column, _) => Plain(column)
    case NullTest(column, _) => Plain(column)
    case InList(column, _, _) => Plain(column)
    case Between(column, _, _) => Plain(column)
    case Logical(operator, conditions) => Plain(operator) && TidyAll(conditions)
    case Not(condition) => Tidy(condition)
    case Raw(sql, args) => TidyRaw(sql, args)
    case ColumnComparison(col1, operator, col2) => Plain(col1) && Plain(operator) && Plain(col2)
    case InSubquery(column, subquery, _) => Plain(column) && TidySelect(subquery)
    case Exists(subquery, _) => TidySelect(subquery)
    case Column(name) => Plain(name)
    case Literal(_) => true
    case Keyword(text) => Plain(text)
    case Call(open, operands) => Plain(open) && TidyAll(operands)
    case Alias(expr, alias) => Tidy(expr) && Plain(alias)
    case Case(operand, whens, otherwise) =>
      (operand.Some? ==> Tidy(operand.value)) && TidyAll(whens) && (otherwise.Some? ==> Tidy(otherwise.value))
    case Over(call, window) => Tidy(call) && Tidy(window)
    case When(test, result) => Tidy(test) && Tidy(result)
    case Window(partitionBy, orderBy, frame) => TidyAll(partitionBy) && TidyAll(orderBy) && Plain(frame)
    case Ordered(expr, _) => Tidy(expr)
    case JoinOn(kind, table, alias, on) => Plain(kind) && Plain(table) && Plain(alias) && Tidy(on)
    case CrossJoin(table, alias) => Plain(table) && Plain(alias)
  }

  predicate TidyAll(ns: seq<Node>)
    decreases ns
  {
    ns == [] || (Tidy(ns[0]) && TidyAll(ns[1..]))
  }

  predicate TidySelect(s: Select)
    decreases s
  {
    && AllPlain(s.columns) && TidyAll(s.columnExprs) && Plain(s.table) && Plain(s.tableAlias)
    && TidyAll(s.joins) && TidyAll(s.conditions) && AllPlain(s.groupBy) && TidyAll(s.groupByExprs)
    && TidyAll(s.having) && (forall i :: 0 <= i < |s.orderBy| ==> Plain(s.orderBy[i].column)) && TidyAll(s.orderByExprs)
    && (s.err.Some? ==> Plain(s.err.value))
  }

  // --------------------------------------------------- printing, piece by piece

  /** The rendered piece prints the inline text t from number p. */
  ghost predicate Prints(d: Dialect, r: Rendered, t: Inline, p: nat) {
    r.sql == Fill(d, t, p) && r.args == Values(t) && r.next == p + |r.args| && Clean(t)
  }

  function FillAll(d: Dialect, ts: seq<Inline>, p: nat): seq<string> {
    if ts == [] then [] else [Fill(d, ts[0], p)] + FillAll(d, ts[1..], p + |Values(ts[0])|)
  }

  function ValuesAll(ts: seq<Inline>): seq<Value> {
    if ts == [] then [] else Values(ts[0]) + ValuesAll(ts[1..])
  }

  predicate CleanAll(ts: seq<Inline>) {
    forall i :: 0 <= i < |ts| ==> Clean(ts[i])
  }

  ghost predicate PrintsAll(d: Dialect, l: Pieces, ts: seq<Inline>, p: nat) {
    l.parts == FillAll(d, ts, p) && l.args == ValuesAll(ts) && l.next == p + |l.args| && CleanAll(ts)
  }

  lemma TextPrints(d: Dialect, s: string, p: nat)
    requires Plain(s)
    ensures Prints(d, Text(s, p), Lit(s), p)
  {
    LitFacts(d, s, p);
  }

  lemma ValuePrints(d: Dialect, pre: string, v: Value, p: nat)
    requires Plain(pre)
    ensures Prints(d, Rendered(pre + Placeholder(d, p), [v], p + 1), Lit(pre) + [Val(v)], p)
  {
    LitFacts(d, pre, p);
    FillConcat(d, Lit(pre), [Val(v)], p);
    ValuesConcat(Lit(pre), [Val(v)]);
    assert Fill(d, [Val(v)], p) == Placeholder(d, p) + "";
  }

  lemma WrapPrints(d: Dialect, pre: string, r: Rendered, t: Inline, post: string, p: nat)
    requires Prints(d, r, t, p) && Plain(pre) && Plain(post) && !StartsWithDigit(post)
    ensures Prints(d, Wrap(pre, r, post), WrapInline(pre, t, post), p)
  {
    LitFacts(d, pre, p);
    LitFacts(d, post, r.next);
    FillConcat(d, Lit(pre), t, p);
    ValuesConcat(Lit(pre), t);
    FillConcat(d, Lit(pre) + t, Lit(post), p);
    ValuesConcat(Lit(pre) + t, Lit(post));
  }

  lemma OnePrints(d: Dialect, r: Rendered, t: Inline, p: nat)
    requires Prints(d, r, t, p)
    ensures PrintsAll(d, One(r), [t], p)
  {
    assert FillAll(d, [t], p) == [Fill(d, t, p)] + [];
  }

  lemma {:induction false} ValuesAllConcat(a: seq<Inline>, b: seq<Inline>)
    ensures ValuesAll(a + b) == ValuesAll(a) + ValuesAll(b)
  {
    if a == [] {
      assert a + b == b;
    } else {
      assert (a + b)[1..] == a[1..] + b;
      ValuesAllConcat(a[1..], b);
    }
  }

  lemma {:induction false} FillAllConcat(d: Dialect, a: seq<Inline>, b: seq<Inline>, p: nat)
    ensures FillAll(d, a + b, p) == FillAll(d, a, p) + FillAll(d, b, p + |ValuesAll(a)|)
    decreases a
  {
    if a == [] {
      assert a + b == b;
    } else {
      var q := p + |Values(a[0])|;
      assert (a + b)[1..] == a[1..] + b && (a + b)[0] == a[0];
      FillAllConcat(d, a[1..], b, q);
      assert q + |ValuesAll(a[1..])| == p + |ValuesAll(a)|;
    }
  }

  lemma AppendPrints(d: Dialect, a: Pieces, ta: seq<Inline>, b: Pieces, tb: seq<Inline>, p: nat)
    requires PrintsAll(d, a, ta, p) && PrintsAll(d, b, tb, a.next)
    ensures PrintsAll(d, Append(a, b), ta + tb, p)
  {
    FillAllConcat(d, ta, tb, p);
    ValuesAllConcat(ta, tb);
  }

  lemma {:induction false} TextsPrint(d: Dialect, parts: seq<string>, p: nat)
    requires AllPlain(parts)
    ensures PrintsAll(d, Texts(parts, p), LitAll(parts), p)
  {
    if parts != [] {
      assert LitAll(parts)[1..] == LitAll(parts[1..]);
      TextsPrint(d, parts[1..], p);
      LitFacts(d, parts[0], p);
      assert parts == [parts[0]] + parts[1..];
      assert LitAll(parts) == [Lit(parts[0])] + LitAll(parts[1..]);
    }
  }

  lemma {:induction false} PlaceholdersPrint(d: Dialect, p: nat, values: seq<Value>)
    ensures PrintsAll(d, PlaceholderPieces(d, p, values), ValAll(values), p)
    decreases values
  {
    if values != [] {
      assert ValAll(values)[1..] == ValAll(values[1..]);
      PlaceholdersPrint(d, p + 1, values[1..]);
      ValuePrints(d, "", values[0], p);
      assert Lit("") + [Val(values[0])] == ValAll(values)[0];
      assert "" + Placeholder(d, p) == Placeholder(d, p);
      assert [values[0]] + values[1..] == values;
      assert ValAll(values) == [ValAll(values)[0]] + ValAll(values[1..]);
      OnePrints(d, Rendered(Placeholder(d, p), [values[0]], p + 1), ValAll(values)[0], p);
      AppendPrints(d, One(Rendered(Placeholder(d, p), [values[0]], p + 1)), [ValAll(values)[0]],
                   PlaceholderPieces(d, p + 1, values[1..]), ValAll(values[1..]), p);
    }
  }

  predicate Separator(sep: string) {
    Plain(sep) && sep != "" && !IsDigit(sep[0])
  }

  lemma PairPrints(d: Dialect, a: Rendered, ta: Inline, sep: string, b: Rendered, tb: Inline, p: nat)
    requires Prints(d, a, ta, p) && Prints(d, b, tb, a.next) && Separator(sep)
    ensures Prints(d, Rendered(a.sql + sep + b.sql, a.args + b.args, b.next), ta + Lit(sep) + tb, p)
  {
    LitFacts(d, sep, a.next);
    FillConcat(d, ta, Lit(sep), p);
    ValuesConcat(ta, Lit(sep));
    FillConcat(d, ta + Lit(sep), tb, p);
    ValuesConcat(ta + Lit(sep), tb);
    PairClean(ta, sep, tb);
  }

  lemma PairClean(ta: Inline, sep: string, tb: Inline)
    requires Clean(ta) && Clean(Lit(sep)) && Clean(tb) && Separator(sep)
    ensures Clean(ta + Lit(sep) + tb)
  {
    assert Lit(sep)[0] == Chr(sep[0]);
    CleanConcat(ta, Lit(sep));
    assert (ta + Lit(sep))[|ta + Lit(sep)| - 1].Chr?;
    CleanConcat(ta + Lit(sep), tb);
  }

  lemma {:induction false} JoinPrints(d: Dialect, l: Pieces, ts: seq<Inline>, sep: string, p: nat)
    requires PrintsAll(d, l, ts, p) && Separator(sep)
    ensures Prints(d, Joined(l, sep), JoinInline(ts, sep), p)
    decreases ts
  {
    FillAllLength(d, ts, p);
    if |ts| == 1 {
      assert ValuesAll(ts) == Values(ts[0]) + [];
      assert l.parts == [Fill(d, ts[0], p)] + [];
    } else if |ts| > 1 {
      var head := Rendered(Fill(d, ts[0], p), Values(ts[0]), p + |Values(ts[0])|);
      var rest := Pieces(FillAll(d, ts[1..], head.next), ValuesAll(ts[1..]), l.next);
      JoinPrints(d, rest, ts[1..], sep, head.next);
      PairPrints(d, head, ts[0], sep, Joined(rest, sep), JoinInline(ts[1..], sep), p);
      assert l.parts[1..] == rest.parts;
    }
  }

  lemma WrapJoinPrints(d: Dialect, pre: string, l: Pieces, ts: seq<Inline>, sep: string, post: string, p: nat)
    requires PrintsAll(d, l, ts, p) && Separator(sep) && Plain(pre) && Plain(post) && !StartsWithDigit(post)
    ensures Prints(d, Wrap(pre, Joined(l, sep), post), WrapInline(pre, JoinInline(ts, sep), post), p)
  {
    JoinPrints(d, l, ts, sep, p);
    WrapPrints(d, pre, Joined(l, sep), JoinInline(ts, sep), post, p);
  }

  lemma {:induction false} FillAllLength(d: Dialect, ts: seq<Inline>, p: nat)
    ensures |FillAll(d, ts, p)| == |ts|
  {
    if ts != [] { FillAllLength(d, ts[1..], p + |Values(ts[0])|); }
  }

  lemma SectionPrints(d: Dialect, keyword: string, l: Pieces, ts: seq<Inline>, sep: string, p: nat)
    requires PrintsAll(d, l, ts, p) && Separator(sep) && Plain(keyword)
    ensures PrintsAll(d, Section(keyword, l, sep), SectionInline(keyword, ts, sep), p)
  {
    FillAllLength(d, ts, p);
    if ts != [] {
      WrapJoinPrints(d, keyword, l, ts, sep, "", p);
      OnePrints(d, Wrap(keyword, Joined(l, sep), ""), WrapInline(keyword, JoinInline(ts, sep), ""), p);
    }
  }

  // --------------------------------------------------- plain names

  lemma PlainConcat(a: string, b: string)
    requires Plain(a) && Plain(b)
    ensures Plain(a + b)
  {}

  lemma {:induction false} DoubledIsPlain(q: char, name: string)
    requires Plain(name) && PlainChar(q)
    ensures Plain(Doubled(q, name))
  {
    if name != "" {
      DoubledIsPlain(q, name[1..]);
      PlainConcat(if name[0] == q then [q, q] else [name[0]], Doubled(q, name[1..]));
    }
  }

  lemma QuoteIsPlain(d: Dialect, name: string)
    requires Plain(name)
    ensures Plain(Quote(d, name))
  {
    DoubledIsPlain(QuoteChar(d), name);
    PlainConcat([QuoteChar(d)] + Doubled(QuoteChar(d), name), [QuoteChar(d)]);
  }

  lemma {:induction false} SplitIsPlain(name: string)
    requires Plain(name)
    ensures AllPlain(SplitAtDots(name))
  {
    if name != "" {
      SplitIsPlain(name[1..]);
      var rest := SplitAtDots(name[1..]);
      PlainConcat([name[0]], rest[0]);
    }
  }

  lemma {:induction false} JoinIsPlain(parts: seq<string>, sep: string)
    requires AllPlain(parts) && Plain(sep)
    ensures Plain(Join(parts, sep))
    decreases parts
  {
    if |parts| > 1 {
      JoinIsPlain(parts[1..], sep);
      PlainConcat(parts[0], sep);
      PlainConcat(parts[0] + sep, Join(parts[1..], sep));
    }
  }

  lemma QualifiedIsPlain(d: Dialect, name: string)
    requires Plain(name)
    ensures Plain(QuoteQualified(d, name))
  {
    if '(' !in name {
      if '.' in name {
        SplitIsPlain(name);
        var parts := SplitAtDots(name);
        forall i | 0 <= i < |parts| ensures Plain(QuoteAll(d, parts)[i]) { QuoteIsPlain(d, parts[i]); }
        JoinIsPlain(QuoteAll(d, parts), ".");
      } else {
        QuoteIsPlain(d, name);
      }
    }
  }

  lemma QualifiedTextsArePlain(d: Dialect, names: seq<string>)
    requires AllPlain(names)
    ensures AllPlain(QualifiedTexts(d, names))
  {
    forall i | 0 <= i < |names| ensures Plain(QualifiedTexts(d, names)[i]) { QualifiedIsPlain(d, names[i]); }
  }

  lemma OrderTextsArePlain(d: Dialect, order: seq<OrderColumn>)
    requires forall i :: 0 <= i < |order| ==> Plain(order[i].column)
    ensures AllPlain(OrderTexts(d, order))
  {
    forall i | 0 <= i < |order| ensures Plain(OrderTexts(d, order)[i]) { QualifiedIsPlain(d, order[i].column); }
  }

  lemma {:induction false} GoEscapedIsPlain(s: string)
    requires Plain(s)
    ensures Plain(GoEscaped(s))
  {
    if s != "" {
      GoEscapedIsPlain(s[1..]);
      PlainConcat(if s[0] == '"' || s[0] == '\\' then ['\\', s[0]] else [s[0]], GoEscaped(s[1..]));
    }
  }

  lemma TableIsPlain(d: Dialect, table: string, alias: string)
    requires Plain(table) && Plain(alias)
    ensures Plain(TableText(d, table, alias))
  {
    QuoteIsPlain(d, table);
    QuoteIsPlain(d, alias);
  }

  lemma LimitIsPlain(limit: int, offset: int)
    ensures Plain(LimitOffset(limit, offset))
  {
    assert forall n: nat :: Plain(Decimal(n)) by {
      forall n: nat ensures Plain(Decimal(n)) { assert AllDigits(Decimal(n)); }
    }
  }

  lemma {:induction false} FirstInvalidIsPlain(ns: seq<Node>)
    requires TidyAll(ns)
    ensures FirstInvalid(ns).Some? ==> Plain(FirstInvalid(ns).value)
  {
    if ns != [] {
      FirstInvalidIsPlain(ns[1..]);
      if ns[0].Ordered? { assert Tidy(ns[0].expr); }
    }
  }

  lemma {:induction false} TidyAllConcat(a: seq<Node>, b: seq<Node>)
    requires TidyAll(a) && TidyAll(b)
    ensures TidyAll(a + b)
  {
    if a == [] {
      assert a + b == b;
    } else {
      assert (a + b)[1..] == a[1..] + b;
      TidyAllConcat(a[1..], b);
    }
  }

  lemma SelectErrorIsPlain(s: Select)
    requires TidySelect(s)
    ensures SelectError(s).Some? ==> Plain(SelectError(s).value)
  {
    TidyAllConcat(s.columnExprs, s.conditions);
    TidyAllConcat(s.columnExprs + s.conditions, s.groupByExprs);
    TidyAllConcat(s.columnExprs + s.conditions + s.groupByExprs, s.having);
    TidyAllConcat(s.columnExprs + s.conditions + s.groupByExprs + s.having, s.orderByExprs);
    FirstInvalidIsPlain(s.columnExprs + s.conditions + s.groupByExprs + s.having + s.orderByExprs);
  }

  // --------------------------------------------------- raw fragments

  lemma {:induction false} RawValues(sql: string, args: seq<Value>)
    requires QuestionMarks(sql) == |args|
    ensures Values(RawInline(sql, args)) == args
  {
    if sql != "" {
      if sql[0] == '?' {
        RawValues(sql[1..], args[1..]);
        assert args == [args[0]] + args[1..];
      } else {
        RawValues(sql[1..], args);
      }
    }
  }

  lemma {:induction false} RawStart(sql: string, args: seq<Value>)
    requires QuestionMarks(sql) == |args|
    ensures |RawInline(sql, args)| == |sql|
    ensures sql != "" ==> (RawInline(sql, args)[0].Val? <==> sql[0] == '?')
    ensures sql != "" && sql[0] != '?' ==> RawInline(sql, args)[0] == Chr(sql[0])
  {
    if sql != "" {
      RawStart(sql[1..], if sql[0] == '?' then args[1..] else args);
    }
  }

  lemma {:induction false} RawClean(sql: string, args: seq<Value>)
    requires TidyRaw(sql, args)
    ensures Clean(RawInline(sql, args))
  {
    if sql != "" {
      var rest := if sql[0] == '?' then args[1..] else args;
      RawClean(sql[1..], rest);
      RawStart(sql[1..], rest);
      CleanConcat([RawInline(sql, args)[0]], RawInline(sql[1..], rest));
    }
  }

  predicate NoMark(s: string) {
    forall i :: 0 <= i < |s| ==> s[i] != '?'
  }

  lemma ReplaceNextMark(before: string, rest: string, ph: string)
    requires NoMark(before) && NoMark(ph)
    ensures ReplaceFirst(before + ("?" + rest), "?", ph) == (before + ph) + rest && NoMark(before + ph)
  {
    ReplaceSkips(before, "?" + rest, "?", ph);
    ReplaceAtFront("?", rest, ph);
  }

  lemma FillOneRaw(d: Dialect, before: string, rest: string, p: nat, n: nat)
    requires Numbered(d) && NoMark(before) && n > 0
    ensures FillRaw(d, before + ("?" + rest), p, n) == FillRaw(d, (before + Placeholder(d, p)) + rest, p + 1, n - 1)
    ensures NoMark(before + Placeholder(d, p))
  {
    assert AllDigits(Decimal(p));
    ReplaceNextMark(before, rest, Placeholder(d, p));
  }

  lemma RawInlineMark(d: Dialect, rest: string, p: nat, args: seq<Value>)
    requires args != []
    ensures Fill(d, RawInline("?" + rest, args), p) == Placeholder(d, p) + Fill(d, RawInline(rest, args[1..]), p + 1)
  {
    assert ("?" + rest)[1..] == rest;
    assert RawInline("?" + rest, args)[1..] == RawInline(rest, args[1..]);
  }

  lemma RawInlineOther(d: Dialect, c: char, rest: string, p: nat, args: seq<Value>)
    requires c != '?'
    ensures Fill(d, RawInline([c] + rest, args), p) == [c] + Fill(d, RawInline(rest, args), p)
  {
    assert ([c] + rest)[1..] == rest;
    assert RawInline([c] + rest, args)[1..] == RawInline(rest, args);
  }

  lemma FillRawMark(d: Dialect, before: string, rest: string, p: nat, args: seq<Value>)
    requires Numbered(d) && NoMark(before) && args != []
    requires FillRaw(d, (before + Placeholder(d, p)) + rest, p + 1, |args| - 1) ==
             (before + Placeholder(d, p)) + Fill(d, RawInline(rest, args[1..]), p + 1)
    ensures FillRaw(d, before + ("?" + rest), p, |args|) == before + Fill(d, RawInline("?" + rest, args), p)
  {
    FillOneRaw(d, before, rest, p, |args|);
    RawInlineMark(d, rest, p, args);
  }

  lemma MoveToFront(before: string, c: char, rest: string)
    ensures before + ([c] + rest) == (before + [c]) + rest
  {}

  /** The loop of first-`?` replacements, part way: `before` is done. */
  lemma {:induction false} FillRawFrom(d: Dialect, before: string, sql: string, p: nat, args: seq<Value>)
    requires Numbered(d) && QuestionMarks(sql) == |args| && NoMark(before)
    ensures FillRaw(d, before + sql, p, |args|) == before + Fill(d, RawInline(sql, args), p)
    decreases |sql|
  {
    if sql == "" {
      assert before + sql == before;
    } else {
      var c, rest := sql[0], sql[1..];
      assert sql == [c] + rest;
      if c == '?' {
        FillOneRaw(d, before, rest, p, |args|);
        FillRawFrom(d, before + Placeholder(d, p), rest, p + 1, args[1..]);
        FillRawMark(d, before, rest, p, args);
      } else {
        FillRawFrom(d, before + [c], rest, p, args);
        MoveToFront(before, c, rest);
        RawInlineOther(d, c, rest, p, args);
        MoveToFront(before, c, Fill(d, RawInline(rest, args), p));
      }
    }
  }

  lemma {:induction false} FillRawUnnumbered(d: Dialect, sql: string, p: nat, n: nat)
    requires !Numbered(d)
    ensures FillRaw(d, sql, p, n) == sql
    decreases n
  {
    if n > 0 {
      ReplaceByItself(sql, "?");
      FillRawUnnumbered(d, sql, p + 1, n - 1);
    }
  }

  lemma {:induction false} RawUnnumbered(d: Dialect, sql: string, args: seq<Value>, p: nat)
    requires !Numbered(d) && QuestionMarks(sql) == |args|
    ensures Fill(d, RawInline(sql, args), p) == sql
  {
    if sql != "" {
      RawUnnumbered(d, sql[1..], if sql[0] == '?' then args[1..] else args, if sql[0] == '?' then p + 1 else p);
      assert sql == [sql[0]] + sql[1..];
    }
  }

  lemma RawPrints(d: Dialect, sql: string, args: seq<Value>, p: nat)
    requires TidyRaw(sql, args)
    ensures Prints(d, Rendered(FillRaw(d, sql, p, |args|), args, p + |args|), RawInline(sql, args), p)
  {
    RawValues(sql, args);
    RawClean(sql, args);
    if Numbered(d) {
      FillRawFrom(d, "", sql, p, args);
      assert "" + sql == sql;
    } else {
      FillRawUnnumbered(d, sql, p, |args|);
      RawUnnumbered(d, sql, args, p);
    }
  }
}
