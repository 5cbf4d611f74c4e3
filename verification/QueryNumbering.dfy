/** The numbering theorem for whole statements. */
module QueryNumbering {
  import opened Options
  import opened SqlText
  import opened Renumbering
  import opened QueryTree
  import opened QueryMeaning

  /** A nested statement, built from 1 and renumbered, prints its inline text
      from p. */
  lemma RenumberedPrints(d: Dialect, t: Inline, p: nat)
    requires Clean(t) && p >= 1
    ensures Prints(d, Rendered(Renumber(d, Fill(d, t, 1), |Values(t)|, p), Values(t), p + |Values(t)|), t, p)
  {
    RenumberShifts(d, t, p);
  }

  lemma LeafPrints(d: Dialect, n: Node, p: nat)
    requires p >= 1 && Tidy(n)
    requires n.Comparison? || n.NullTest? || n.ColumnComparison? || n.Column? || n.Literal? || n.Keyword? || n.CrossJoin?
    ensures Prints(d, Render(d, n, p), InlineOf(d, n), p)
  {
    match n
    case Comparison(column, operator, value) =>
      QualifiedIsPlain(d, column);
      PlainConcat(QuoteQualified(d, column), " ");
      ValuePrints(d, QuoteQualified(d, column) + " " + operator + " ", value, p);
    case NullTest(column, isNull) =>
      QualifiedIsPlain(d, column);
      TextPrints(d, QuoteQualified(d, column) + if isNull then " IS NULL" else " IS NOT NULL", p);
    case ColumnComparison(col1, operator, col2) =>
      QualifiedIsPlain(d, col1);
      QualifiedIsPlain(d, col2);
      TextPrints(d, QuoteQualified(d, col1) + " " + operator + " " + QuoteQualified(d, col2), p);
    case Column(name) =>
      QuoteIsPlain(d, name);
      TextPrints(d, Quote(d, name), p);
    case Literal(value) =>
      ValuePrints(d, "", value, p);
      assert Lit("") + [Val(value)] == [Val(value)] && "" + Placeholder(d, p) == Placeholder(d, p);
    case Keyword(text) => TextPrints(d, text, p);
    case CrossJoin(table, alias) =>
      TableIsPlain(d, table, alias);
      TextPrints(d, "CROSS JOIN " + TableText(d, table, alias), p);
  }

  lemma ILikePrints(d: Dialect, column: string, pattern: string, p: nat)
    requires p >= 1 && Plain(column)
    ensures Prints(d, Render(d, ILike(column, pattern), p), InlineOf(d, ILike(column, pattern)), p)
  {
    var name := QuoteQualified(d, column);
    QualifiedIsPlain(d, column);
    if d.Postgres? {
      PlainConcat(name, " ILIKE ");
      ValuePrints(d, name + " ILIKE ", StringValue(pattern), p);
    } else {
      LoweredPrints(d, name, StringValue(pattern), p);
    }
  }

  lemma LoweredPrints(d: Dialect, name: string, value: Value, p: nat)
    requires Plain(name)
    ensures Prints(d, Rendered("LOWER(" + name + ") LIKE LOWER(" + Placeholder(d, p) + ")", [value], p + 1),
                   WrapInline("LOWER(" + name + ") LIKE LOWER(", [Val(value)], ")"), p)
  {
    PlainConcat("LOWER(", name);
    PlainConcat("LOWER(" + name, ") LIKE LOWER(");
    ValuePrints(d, "", value, p);
    assert Lit("") + [Val(value)] == [Val(value)] && "" + Placeholder(d, p) == Placeholder(d, p);
    WrapPrints(d, "LOWER(" + name + ") LIKE LOWER(", Rendered(Placeholder(d, p), [value], p + 1), [Val(value)], ")", p);
  }

  lemma InListPrints(d: Dialect, column: string, values: seq<Value>, notIn: bool, p: nat)
    requires p >= 1 && Plain(column)
    ensures Prints(d, Render(d, InList(column, values, notIn), p), InlineOf(d, InList(column, values, notIn)), p)
  {
    if values == [] {
      TextPrints(d, if notIn then "1=1" else "1=0", p);
    } else {
      QualifiedIsPlain(d, column);
      PlaceholdersPrint(d, p, values);
      WrapJoinPrints(d, QuoteQualified(d, column) + InOpen(notIn), PlaceholderPieces(d, p, values), ValAll(values), ", ", ")", p);
    }
  }

  lemma BetweenPrints(d: Dialect, column: string, start: Value, end: Value, p: nat)
    requires p >= 1 && Plain(column)
    ensures Prints(d, Render(d, Between(column, start, end), p), InlineOf(d, Between(column, start, end)), p)
  {
    QualifiedIsPlain(d, column);
    PlaceholdersPrint(d, p, [start, end]);
    WrapJoinPrints(d, QuoteQualified(d, column) + " BETWEEN ", PlaceholderPieces(d, p, [start, end]), ValAll([start, end]), " AND ", "", p);
  }

  lemma ErrorsArePlain(column: string, negate: bool, err: string)
    requires Plain(err)
    ensures Plain(column) ==> Plain(InSubqueryError(column, err))
    ensures Plain(ExistsError(negate, err))
  {
    var tail := ": " + err + " */ 1=0";
    assert Plain(tail);
    if Plain(column) {
      GoEscapedIsPlain(column);
      var pre := "/* ERROR: InSubquery" + " build failed for column ";
      assert Plain(GoQuoted(column));
      PlainConcat(pre, GoQuoted(column));
      PlainConcat(pre + GoQuoted(column), tail);
      assert InSubqueryError(column, err) == pre + GoQuoted(column) + tail;
    }
    var start := "/* ERROR: " + if negate then "NOT EXISTS" else "EXISTS";
    PlainConcat(start, " build failed");
    PlainConcat(start + " build failed", tail);
    assert ExistsError(negate, err) == start + " build failed" + tail;
  }

  /** A nested statement that fails to build leaves an error comment. */
  lemma FailedSubqueryPrints(d: Dialect, n: Node, p: nat)
    requires p >= 1 && Tidy(n) && (n.InSubquery? || n.Exists?) && SelectError(n.subquery).Some?
    ensures Prints(d, Render(d, n, p), InlineOf(d, n), p)
  {
    var err := SelectError(n.subquery).value;
    SelectErrorIsPlain(n.subquery);
    if n.InSubquery? {
      ErrorsArePlain(n.column, n.negate, err);
      TextPrints(d, InSubqueryError(n.column, err), p);
    } else {
      ErrorsArePlain("", n.negate, err);
      TextPrints(d, ExistsError(n.negate, err), p);
    }
  }

  /** One that builds is renumbered in place. */
  lemma BuiltSubqueryPrints(d: Dialect, pre: string, sql: string, args: seq<Value>, t: Inline, p: nat)
    requires p >= 1 && Plain(pre) && Clean(t) && sql == Fill(d, t, 1) && args == Values(t)
    ensures Prints(d, Wrap(pre, Rendered(Renumber(d, sql, |args|, p), args, p + |args|), ")"), WrapInline(pre, t, ")"), p)
  {
    RenumberedPrints(d, t, p);
    WrapPrints(d, pre, Rendered(Renumber(d, sql, |args|, p), args, p + |args|), t, ")", p);
  }

  lemma OpensArePlain(negate: bool)
    ensures Plain(InOpen(negate)) && Plain(ExistsOpen(negate))
  {}

  lemma InSubqueryNodePrints(d: Dialect, n: Node, t: Inline, p: nat)
    requires p >= 1 && n.InSubquery? && Plain(n.column)
    requires SelectError(n.subquery).None? && t == InlineSelect(d, n.subquery) && Clean(t)
    requires Build(d, n.subquery) == Built(Fill(d, t, 1), Values(t))
    ensures Prints(d, Render(d, n, p), InlineOf(d, n), p)
  {
    var keyword := InOpen(n.negate);
    QuoteIsPlain(d, n.column);
    PlainConcat(Quote(d, n.column), keyword);
    BuiltSubqueryPrints(d, Quote(d, n.column) + keyword, Fill(d, t, 1), Values(t), t, p);
  }

  lemma ExistsNodePrints(d: Dialect, n: Node, t: Inline, p: nat)
    requires p >= 1 && n.Exists?
    requires SelectError(n.subquery).None? && t == InlineSelect(d, n.subquery) && Clean(t)
    requires Build(d, n.subquery) == Built(Fill(d, t, 1), Values(t))
    ensures Prints(d, Render(d, n, p), InlineOf(d, n), p)
  {
    OpensArePlain(n.negate);
    BuiltSubqueryPrints(d, ExistsOpen(n.negate), Fill(d, t, 1), Values(t), t, p);
  }

  lemma TwoPrint(d: Dialect, a: Rendered, ta: Inline, b: Rendered, tb: Inline, pre: string, sep: string, post: string, p: nat)
    requires Prints(d, a, ta, p) && Prints(d, b, tb, a.next) && Plain(pre) && Plain(post) && !StartsWithDigit(post) && Separator(sep)
    ensures Prints(d, Wrap(pre, Joined(Append(One(a), One(b)), sep), post), WrapInline(pre, JoinInline([ta] + [tb], sep), post), p)
  {
    OnePrints(d, a, ta, p);
    OnePrints(d, b, tb, a.next);
    AppendPrints(d, One(a), [ta], One(b), [tb], p);
    WrapJoinPrints(d, pre, Append(One(a), One(b)), [ta] + [tb], sep, post, p);
  }

  lemma CasePrints(d: Dialect, head: Rendered, th: Inline, middle: Pieces, tm: seq<Inline>, tail: Pieces, tt: seq<Inline>, p: nat)
    requires Prints(d, head, th, p) && PrintsAll(d, middle, tm, head.next) && PrintsAll(d, tail, tt, middle.next)
    ensures Prints(d, Joined(Append(Append(Append(One(head), middle), tail), Texts(["END"], tail.next)), " "),
                   JoinInline([th] + tm + tt + LitAll(["END"]), " "), p)
  {
    OnePrints(d, head, th, p);
    AppendPrints(d, One(head), [th], middle, tm, p);
    AppendPrints(d, Append(One(head), middle), [th] + tm, tail, tt, p);
    TextsPrint(d, ["END"], tail.next);
    var l, ts := Append(Append(One(head), middle), tail), [th] + tm + tt;
    AppendPrints(d, l, ts, Texts(["END"], tail.next), LitAll(["END"]), p);
    JoinPrints(d, Append(l, Texts(["END"], tail.next)), ts + LitAll(["END"]), " ", p);
  }

  lemma WindowPrints(d: Dialect, parts: Pieces, tp: seq<Inline>, order: Pieces, to: seq<Inline>, frame: seq<string>, p: nat)
    requires PrintsAll(d, parts, tp, p) && PrintsAll(d, order, to, parts.next) && AllPlain(frame)
    ensures Prints(d, Joined(Append(Append(Section("PARTITION BY ", parts, ", "), Section("ORDER BY ", order, ", ")),
                                    Texts(frame, order.next)), " "),
                   JoinInline(SectionInline("PARTITION BY ", tp, ", ") + SectionInline("ORDER BY ", to, ", ") + LitAll(frame), " "), p)
  {
    SectionPrints(d, "PARTITION BY ", parts, tp, ", ", p);
    SectionPrints(d, "ORDER BY ", order, to, ", ", parts.next);
    var a, b := Section("PARTITION BY ", parts, ", "), Section("ORDER BY ", order, ", ");
    var ta, tb := SectionInline("PARTITION BY ", tp, ", "), SectionInline("ORDER BY ", to, ", ");
    AppendPrints(d, a, ta, b, tb, p);
    TextsPrint(d, frame, order.next);
    AppendPrints(d, Append(a, b), ta + tb, Texts(frame, order.next), LitAll(frame), p);
    JoinPrints(d, Append(Append(a, b), Texts(frame, order.next)), ta + tb + LitAll(frame), " ", p);
  }

  /** Every node prints its inline statement, from any number. */
  lemma {:induction false} NodePrints(d: Dialect, n: Node, p: nat)
    requires p >= 1 && Tidy(n)
    ensures Prints(d, Render(d, n, p), InlineOf(d, n), p)
    decreases n, 1
  {
    match n
    case Invalid(_) =>
    case ILike(column, pattern) => ILikePrints(d, column, pattern, p);
    case InList(column, values, notIn) => InListPrints(d, column, values, notIn, p);
    case Between(column, start, end) => BetweenPrints(d, column, start, end, p);
    case Logical(_, _) => LogicalPrints(d, n, p);
    case Not(_) => WrapperPrints(d, n, p);
    case Raw(sql, args) => RawPrints(d, sql, args, p);
    case InSubquery(_, _, _) => SubqueryPrints(d, n, p);
    case Exists(_, _) => SubqueryPrints(d, n, p);
    case Call(_, _) => CallPrints(d, n, p);
    case Alias(_, _) => WrapperPrints(d, n, p);
    case Case(_, _, _) => CaseNodePrints(d, n, p);
    case Over(_, _) => PairNodePrints(d, n, p);
    case When(_, _) => PairNodePrints(d, n, p);
    case Window(_, _, _) => WindowNodePrints(d, n, p);
    case Ordered(_, _) => WrapperPrints(d, n, p);
    case JoinOn(_, _, _, _) => JoinNodePrints(d, n, p);
    case _ => LeafPrints(d, n, p);
  }

  lemma {:induction false} WrapperPrints(d: Dialect, n: Node, p: nat)
    requires p >= 1 && Tidy(n) && (n.Not? || n.Alias? || n.Ordered?)
    ensures Prints(d, Render(d, n, p), InlineOf(d, n), p)
    decreases n, 0
  {
    match n
    case Not(condition) =>
      NodePrints(d, condition, p);
      WrapPrints(d, "NOT (", Render(d, condition, p), InlineOf(d, condition), ")", p);
    case Alias(expr, alias) =>
      NodePrints(d, expr, p);
      QuoteIsPlain(d, alias);
      WrapPrints(d, "", Render(d, expr, p), InlineOf(d, expr), " AS " + Quote(d, alias), p);
    case Ordered(expr, descending) =>
      NodePrints(d, expr, p);
      WrapPrints(d, "", Render(d, expr, p), InlineOf(d, expr), Direction(descending), p);
  }

  lemma {:induction false} JoinNodePrints(d: Dialect, n: Node, p: nat)
    requires p >= 1 && Tidy(n) && n.JoinOn?
    ensures Prints(d, Render(d, n, p), InlineOf(d, n), p)
    decreases n, 0
  {
    var table := TableText(d, n.table, n.alias);
    NodePrints(d, n.on, p);
    TableIsPlain(d, n.table, n.alias);
    PlainConcat(n.kind + " ", table);
    PlainConcat(n.kind + " " + table, " ON ");
    WrapPrints(d, n.kind + " " + table + " ON ", Render(d, n.on, p), InlineOf(d, n.on), "", p);
  }

  lemma {:induction false} CallPrints(d: Dialect, n: Node, p: nat)
    requires p >= 1 && Tidy(n) && n.Call?
    ensures Prints(d, Render(d, n, p), InlineOf(d, n), p)
    decreases n, 0
  {
    var l, ts := RenderAll(d, n.operands, p), InlineAll(d, n.operands);
    AllPrint(d, n.operands, p);
    WrapJoinPrints(d, n.open, l, ts, ", ", ")", p);
  }

  lemma {:induction false} PairNodePrints(d: Dialect, n: Node, p: nat)
    requires p >= 1 && Tidy(n) && (n.Over? || n.When?)
    ensures Prints(d, Render(d, n, p), InlineOf(d, n), p)
    decreases n, 0
  {
    match n
    case Over(call, window) =>
      NodePrints(d, call, p);
      var c := Render(d, call, p);
      NodePrints(d, window, c.next);
      TwoPrint(d, c, InlineOf(d, call), Render(d, window, c.next), InlineOf(d, window), "", " OVER (", ")", p);
    case When(test, result) =>
      NodePrints(d, test, p);
      var t := Render(d, test, p);
      NodePrints(d, result, t.next);
      TwoPrint(d, t, InlineOf(d, test), Render(d, result, t.next), InlineOf(d, result), "WHEN ", " THEN ", "", p);
  }

  lemma {:induction false} WindowNodePrints(d: Dialect, n: Node, p: nat)
    requires p >= 1 && Tidy(n) && n.Window?
    ensures Prints(d, Render(d, n, p), InlineOf(d, n), p)
    decreases n, 0
  {
    AllPrint(d, n.partitionBy, p);
    var parts := RenderAll(d, n.partitionBy, p);
    AllPrint(d, n.orderBy, parts.next);
    WindowPrints(d, parts, InlineAll(d, n.partitionBy), RenderAll(d, n.orderBy, parts.next), InlineAll(d, n.orderBy),
                 if n.frame == "" then [] else [n.frame], p);
  }

  lemma {:induction false} LogicalPrints(d: Dialect, n: Node, p: nat)
    requires p >= 1 && Tidy(n) && n.Logical?
    ensures Prints(d, Render(d, n, p), InlineOf(d, n), p)
    decreases n, 0
  {
    var conditions, sep := n.conditions, " " + n.operator + " ";
    if |conditions| == 0 {
      TextPrints(d, "1=1", p);
    } else if |conditions| == 1 {
      NodePrints(d, conditions[0], p);
    } else {
      AllPrint(d, conditions, p);
      WrapJoinPrints(d, "(", RenderAll(d, conditions, p), InlineAll(d, conditions), sep, ")", p);
    }
  }

  lemma {:induction false} SubqueryPrints(d: Dialect, n: Node, p: nat)
    requires p >= 1 && Tidy(n) && (n.InSubquery? || n.Exists?)
    ensures Prints(d, Render(d, n, p), InlineOf(d, n), p)
    decreases n, 0
  {
    if SelectError(n.subquery).Some? {
      FailedSubqueryPrints(d, n, p);
    } else {
      SelectPrints(d, n.subquery);
      if n.InSubquery? {
        InSubqueryNodePrints(d, n, InlineSelect(d, n.subquery), p);
      } else {
        ExistsNodePrints(d, n, InlineSelect(d, n.subquery), p);
      }
    }
  }

  lemma {:induction false} CaseNodePrints(d: Dialect, n: Node, p: nat)
    requires p >= 1 && Tidy(n) && n.Case?
    ensures Prints(d, Render(d, n, p), InlineOf(d, n), p)
    decreases n, 0
  {
    var head, th := Text("CASE", p), Lit("CASE");
    if n.operand.Some? {
      NodePrints(d, n.operand.value, p);
      head, th := Wrap("CASE ", Render(d, n.operand.value, p), ""), WrapInline("CASE ", InlineOf(d, n.operand.value), "");
      WrapPrints(d, "CASE ", Render(d, n.operand.value, p), InlineOf(d, n.operand.value), "", p);
    } else {
      TextPrints(d, "CASE", p);
    }
    AllPrint(d, n.whens, head.next);
    var middle := RenderAll(d, n.whens, head.next);
    var tail, tt := NoPieces(middle.next), [];
    if n.otherwise.Some? {
      var e := n.otherwise.value;
      NodePrints(d, e, middle.next);
      WrapPrints(d, "ELSE ", Render(d, e, middle.next), InlineOf(d, e), "", middle.next);
      tail, tt := One(Wrap("ELSE ", Render(d, e, middle.next), "")), [WrapInline("ELSE ", InlineOf(d, e), "")];
      OnePrints(d, Wrap("ELSE ", Render(d, e, middle.next), ""), tt[0], middle.next);
    }
    CasePrints(d, head, th, middle, InlineAll(d, n.whens), tail, tt, p);
  }

  lemma {:induction false} AllPrint(d: Dialect, ns: seq<Node>, p: nat)
    requires p >= 1 && TidyAll(ns)
    ensures PrintsAll(d, RenderAll(d, ns, p), InlineAll(d, ns), p)
    decreases ns
  {
    if ns != [] {
      NodePrints(d, ns[0], p);
      var head := Render(d, ns[0], p);
      AllPrint(d, ns[1..], head.next);
      OnePrints(d, head, InlineOf(d, ns[0]), p);
      AppendPrints(d, One(head), [InlineOf(d, ns[0])], RenderAll(d, ns[1..], head.next), InlineAll(d, ns[1..]), p);
    }
  }

  lemma {:induction false} SelectPrints(d: Dialect, s: Select)
    requires TidySelect(s) && SelectError(s).None?
    ensures Build(d, s) == Built(Fill(d, InlineSelect(d, s), 1), Values(InlineSelect(d, s)))
    ensures Clean(InlineSelect(d, s))
    decreases s, 1
  {
    SelectPiecesPrint(d, s);
  }

  lemma {:induction false} SelectPiecesPrint(d: Dialect, s: Select)
    requires TidySelect(s)
    ensures Prints(d, Joined(SelectPieces(d, s), " "), InlineSelect(d, s), 1)
    decreases s, 0
  {
    AllPrint(d, s.columnExprs, 1);
    var columns := RenderAll(d, s.columnExprs, 1);
    AllPrint(d, s.joins, columns.next);
    var joins := RenderAll(d, s.joins, columns.next);
    AllPrint(d, s.conditions, joins.next);
    var conditions := RenderAll(d, s.conditions, joins.next);
    AllPrint(d, s.groupByExprs, conditions.next);
    var groups := RenderAll(d, s.groupByExprs, conditions.next);
    AllPrint(d, s.having, groups.next);
    var having := RenderAll(d, s.having, groups.next);
    AllPrint(d, s.orderByExprs, having.next);
    var order := RenderAll(d, s.orderByExprs, having.next);
    StatementPrints(d, s, columns, InlineAll(d, s.columnExprs), joins, InlineAll(d, s.joins), conditions, InlineAll(d, s.conditions),
                    groups, InlineAll(d, s.groupByExprs), having, InlineAll(d, s.having), order, InlineAll(d, s.orderByExprs));
  }

  lemma ClausePrints(d: Dialect, keyword: string, texts: seq<string>, l: Pieces, ts: seq<Inline>, p: nat)
    requires AllPlain(texts) && PrintsAll(d, l, ts, p) && Plain(keyword)
    ensures PrintsAll(d, Section(keyword, Append(Texts(texts, p), l), ", "), SectionInline(keyword, LitAll(texts) + ts, ", "), p)
  {
    TextsPrint(d, texts, p);
    AppendPrints(d, Texts(texts, p), LitAll(texts), l, ts, p);
    SectionPrints(d, keyword, Append(Texts(texts, p), l), LitAll(texts) + ts, ", ", p);
  }

  lemma AppendTextsPrint(d: Dialect, l: Pieces, ts: seq<Inline>, texts: seq<string>, p: nat)
    requires AllPlain(texts) && PrintsAll(d, l, ts, p)
    ensures PrintsAll(d, Append(l, Texts(texts, l.next)), ts + LitAll(texts), p)
  {
    TextsPrint(d, texts, l.next);
    AppendPrints(d, l, ts, Texts(texts, l.next), LitAll(texts), p);
  }

  lemma HeadPrints(d: Dialect, s: Select, columns: Pieces, tc: seq<Inline>)
    requires TidySelect(s) && PrintsAll(d, columns, tc, 1)
    ensures
      var selected := Append(Texts(QualifiedTexts(d, s.columns), 1), columns);
      var tselected := LitAll(QualifiedTexts(d, s.columns)) + tc;
      && (selected.parts == [] <==> tselected == [])
      && (selected.parts == [] ==>
            PrintsAll(d, Append(Texts([SelectKeyword(s) + " *"], 1), columns), LitAll([SelectKeyword(s) + " *"]), 1))
      && (selected.parts != [] ==>
            PrintsAll(d, Section(SelectKeyword(s) + " ", selected, ", "), SectionInline(SelectKeyword(s) + " ", tselected, ", "), 1))
  {
    QualifiedTextsArePlain(d, s.columns);
    FillAllLength(d, tc, 1);
    var selected := Append(Texts(QualifiedTexts(d, s.columns), 1), columns);
    if selected.parts == [] {
      TextsPrint(d, [SelectKeyword(s) + " *"], 1);
      AppendPrints(d, Texts([SelectKeyword(s) + " *"], 1), LitAll([SelectKeyword(s) + " *"]), columns, tc, 1);
      assert LitAll([SelectKeyword(s) + " *"]) + tc == LitAll([SelectKeyword(s) + " *"]);
    } else {
      ClausePrints(d, SelectKeyword(s) + " ", QualifiedTexts(d, s.columns), columns, tc, 1);
    }
  }

  lemma StatementPrints(d: Dialect, s: Select, columns: Pieces, tc: seq<Inline>, joins: Pieces, tj: seq<Inline>,
                        conditions: Pieces, tw: seq<Inline>, groups: Pieces, tg: seq<Inline>,
                        having: Pieces, th: seq<Inline>, order: Pieces, to: seq<Inline>)
    requires TidySelect(s)
    requires PrintsAll(d, columns, tc, 1) && PrintsAll(d, joins, tj, columns.next) && PrintsAll(d, conditions, tw, joins.next)
    requires PrintsAll(d, groups, tg, conditions.next) && PrintsAll(d, having, th, groups.next) && PrintsAll(d, order, to, having.next)
    ensures Prints(d, Joined(Statement(d, s, columns, joins, conditions, groups, having, order), " "),
                   JoinInline(StatementInline(d, s, tc, tj, tw, tg, th, to), " "), 1)
  {
    var selected := Append(Texts(QualifiedTexts(d, s.columns), 1), columns);
    var tselected := LitAll(QualifiedTexts(d, s.columns)) + tc;
    HeadPrints(d, s, columns, tc);
    var head := if selected.parts == [] then Append(Texts([SelectKeyword(s) + " *"], 1), columns)
                else Section(SelectKeyword(s) + " ", selected, ", ");
    var t := if tselected == [] then LitAll([SelectKeyword(s) + " *"]) else SectionInline(SelectKeyword(s) + " ", tselected, ", ");
    TableIsPlain(d, s.table, s.tableAlias);
    AppendTextsPrint(d, head, t, FromTexts(d, s), 1);
    var a, ta := Append(head, Texts(FromTexts(d, s), columns.next)), t + LitAll(FromTexts(d, s));
    AppendPrints(d, a, ta, joins, tj, 1);
    a, ta := Append(a, joins), ta + tj;
    SectionPrints(d, "WHERE ", conditions, tw, " AND ", joins.next);
    AppendPrints(d, a, ta, Section("WHERE ", conditions, " AND "), SectionInline("WHERE ", tw, " AND "), 1);
    a, ta := Append(a, Section("WHERE ", conditions, " AND ")), ta + SectionInline("WHERE ", tw, " AND ");
    TailPrints(d, s, a, ta, groups, tg, having, th, order, to);
  }

  lemma TailPrints(d: Dialect, s: Select, b: Pieces, tb: seq<Inline>, groups: Pieces, tg: seq<Inline>,
                   having: Pieces, th: seq<Inline>, order: Pieces, to: seq<Inline>)
    requires TidySelect(s) && PrintsAll(d, b, tb, 1)
    requires PrintsAll(d, groups, tg, b.next) && PrintsAll(d, having, th, groups.next) && PrintsAll(d, order, to, having.next)
    ensures
      var c := Append(b, Section("GROUP BY ", Append(Texts(QualifiedTexts(d, s.groupBy), b.next), groups), ", "));
      var e := Append(c, Section("HAVING ", having, " AND "));
      var f := Append(e, Section("ORDER BY ", Append(Texts(OrderTexts(d, s.orderBy), having.next), order), ", "));
      var tcl := tb + SectionInline("GROUP BY ", LitAll(QualifiedTexts(d, s.groupBy)) + tg, ", ");
      var te := tcl + SectionInline("HAVING ", th, " AND ");
      var tf := te + SectionInline("ORDER BY ", LitAll(OrderTexts(d, s.orderBy)) + to, ", ");
      Prints(d, Joined(Append(f, Texts(LimitTexts(s), order.next)), " "), JoinInline(tf + LitAll(LimitTexts(s)), " "), 1)
  {
    QualifiedTextsArePlain(d, s.groupBy);
    ClausePrints(d, "GROUP BY ", QualifiedTexts(d, s.groupBy), groups, tg, b.next);
    var x, tx := Section("GROUP BY ", Append(Texts(QualifiedTexts(d, s.groupBy), b.next), groups), ", "),
                 SectionInline("GROUP BY ", LitAll(QualifiedTexts(d, s.groupBy)) + tg, ", ");
    AppendPrints(d, b, tb, x, tx, 1);
    var c, tcl := Append(b, x), tb + tx;
    SectionPrints(d, "HAVING ", having, th, " AND ", groups.next);
    var y, ty := Section("HAVING ", having, " AND "), SectionInline("HAVING ", th, " AND ");
    AppendPrints(d, c, tcl, y, ty, 1);
    OrderTextsArePlain(d, s.orderBy);
    ClausePrints(d, "ORDER BY ", OrderTexts(d, s.orderBy), order, to, having.next);
    var z, tz := Section("ORDER BY ", Append(Texts(OrderTexts(d, s.orderBy), having.next), order), ", "),
                 SectionInline("ORDER BY ", LitAll(OrderTexts(d, s.orderBy)) + to, ", ");
    AppendPrints(d, Append(c, y), tcl + ty, z, tz, 1);
    LimitIsPlain(s.limit, s.offset);
    AppendTextsPrint(d, Append(Append(c, y), z), tcl + ty + tz, LimitTexts(s), 1);
    JoinPrints(d, Append(Append(Append(c, y), z), Texts(LimitTexts(s), order.next)), tcl + ty + tz + LitAll(LimitTexts(s)), " ", 1);
  }

  // --------------------------------------------------- main results

  /** Rendering a tree from number p gives placeholders p..next - 1, each once
      and in order, and a database that reads the text with its arguments
      reads the tree's inline statement. */
  lemma RenderedTreeReadsAsInline(d: Dialect, n: Node, p: nat)
    requires p >= 1 && Tidy(n)
    ensures
      var r := Render(d, n, p);
      && r.next == p + |r.args|
      && Bind(d, r.sql, r.args, p) == Some(InlineOf(d, n))
      && (Numbered(d) ==> PlaceholderNumbers(r.sql) == Consecutive(p, r.next - p))
  {
    NodePrints(d, n, p);
    FillReadsBack(d, InlineOf(d, n), p);
    if Numbered(d) { FillNumbers(InlineOf(d, n), p); }
  }

  /** The same for a whole SELECT, whose placeholders start at 1. */
  lemma BuiltSelectReadsAsInline(d: Dialect, s: Select)
    requires TidySelect(s)
    ensures Build(d, s).BuildError? <==> SelectError(s).Some?
    ensures
      var b := Build(d, s);
      b.Built? ==>
        && Bind(d, b.sql, b.args, 1) == Some(InlineSelect(d, s))
        && (Numbered(d) ==> PlaceholderNumbers(b.sql) == Consecutive(1, |b.args|))
  {
    if SelectError(s).None? {
      SelectPrints(d, s);
      FillReadsBack(d, InlineSelect(d, s), 1);
      if Numbered(d) { FillNumbers(InlineSelect(d, s), 1); }
    }
  }

  /** Nesting keeps a statement's meaning: read inside its host, whatever the
      host's counter, a subquery is what it is when built and read alone. */
  lemma NestedSelectReadsAsAlone(d: Dialect, s: Select, negate: bool, p: nat)
    requires p >= 1 && TidySelect(s) && SelectError(s).None?
    ensures
      var host, alone := Render(d, Exists(s, negate), p), Build(d, s);
      && alone.Built? && host.args == alone.args
      && Bind(d, alone.sql, alone.args, 1).Some?
      && Bind(d, host.sql, host.args, p) == Some(WrapInline(ExistsOpen(negate), Bind(d, alone.sql, alone.args, 1).value, ")"))
  {
    BuiltSelectReadsAsInline(d, s);
    RenderedTreeReadsAsInline(d, Exists(s, negate), p);
    NodePrints(d, Exists(s, negate), p);
    SelectPrints(d, s);
  }
}
