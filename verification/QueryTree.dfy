/** The query tree and its rendering (query/condition.go, query/expression.go,
    query/case.go, query/window.go, query/join.go, query/subquery.go,
    query/select.go).

    `Condition` and `Expression` are two interfaces with one method of one
    signature, so the tree is one datatype here; the WHEN, ORDER BY and JOIN
    clauses and the window specification, which render in the same way, are
    nodes of it too. A nested SELECT is the value its builder holds when it is
    built.
 */
module QueryTree {
  import opened Options
  import opened SqlText
  import opened Renumbering

  datatype Node =
    // conditions; LIKE and NOT LIKE are comparisons with a string value
    | Invalid(err: string)
    | Comparison(column: string, operator: string, value: Value)
    | ILike(column: string, pattern: string)
    | NullTest(column: string, isNull: bool)
    | InList(column: string, values: seq<Value>, notIn: bool)
    | Between(column: string, start: Value, end: Value)
    | Logical(operator: string, conditions: seq<Node>)
    | Not(condition: Node)
    | Raw(sql: string, args: seq<Value>)
    | ColumnComparison(col1: string, operator: string, col2: string)
    | InSubquery(column: string, subquery: Select, negate: bool)
    | Exists(subquery: Select, negate: bool)
    // expressions; Keyword is NOW(), CURRENT_DATE, CURRENT_TIME
    | Column(name: string)
    | Literal(value: Value)
    | Keyword(text: string)
    | Call(open: string, operands: seq<Node>)
    | Alias(expr: Node, alias: string)
    | Case(operand: Option<Node>, whens: seq<Node>, otherwise: Option<Node>)
    | Over(call: Node, window: Node)
    // clauses
    | When(test: Node, result: Node)
    | Window(partitionBy: seq<Node>, orderBy: seq<Node>, frame: string)
    | Ordered(expr: Node, descending: bool)
    | JoinOn(kind: string, table: string, alias: string, on: Node)
    | CrossJoin(table: string, alias: string)

  datatype OrderColumn = OrderColumn(column: string, descending: bool)

  datatype Select = Select(
    distinct: bool, columns: seq<string>, columnExprs: seq<Node>,
    table: string, tableAlias: string, joins: seq<Node>, conditions: seq<Node>,
    groupBy: seq<string>, groupByExprs: seq<Node>, having: seq<Node>,
    orderBy: seq<OrderColumn>, orderByExprs: seq<Node>,
    limit: int, offset: int, err: Option<string>)

  // ------------------------------------------------------ dialect and names

  function QuoteChar(d: Dialect): char {
    if d.MySQL? then '`' else '"'
  }

  /** Every quote character doubled. */
  function Doubled(q: char, name: string): string {
    if name == "" then ""
    else (if name[0] == q then [q, q] else [name[0]]) + Doubled(q, name[1..])
  }

  function Quote(d: Dialect, name: string): string {
    [QuoteChar(d)] + Doubled(QuoteChar(d), name) + [QuoteChar(d)]
  }

  /** strings.Split(name, "."). */
  function SplitAtDots(name: string): (parts: seq<string>)
    ensures |parts| >= 1
  {
    if name == "" then [""]
    else
      var rest := SplitAtDots(name[1..]);
      if name[0] == '.' then [""] + rest else [[name[0]] + rest[0]] + rest[1..]
  }

  function QuoteAll(d: Dialect, names: seq<string>): seq<string> {
    seq(|names|, i requires 0 <= i < |names| => Quote(d, names[i]))
  }

  /** Names with a parenthesis are expressions and pass through unquoted. */
  function QuoteQualified(d: Dialect, name: string): string {
    if '(' in name then name
    else if '.' in name then Join(QuoteAll(d, SplitAtDots(name)), ".")
    else Quote(d, name)
  }

  /** strings.Join. */
  function Join(parts: seq<string>, sep: string): string {
    if |parts| == 0 then ""
    else if |parts| == 1 then parts[0]
    else parts[0] + sep + Join(parts[1..], sep)
  }

  function LimitOffset(limit: int, offset: int): string {
    if limit > 0 && offset > 0 then "LIMIT " + Decimal(limit) + " OFFSET " + Decimal(offset)
    else if limit > 0 then "LIMIT " + Decimal(limit)
    else if offset > 0 then "OFFSET " + Decimal(offset)
    else ""
  }

  // ------------------------------------------------------ rendered pieces

  /** What ToSQL returns: text, arguments and the next free number. */
  datatype Rendered = Rendered(sql: string, args: seq<Value>, next: nat)

  /** Several pieces numbered one after the other, not yet joined. */
  datatype Pieces = Pieces(parts: seq<string>, args: seq<Value>, next: nat)

  datatype Built = Built(sql: string, args: seq<Value>) | BuildError(err: string)

  function Text(s: string, p: nat): Rendered {
    Rendered(s, [], p)
  }

  function Wrap(pre: string, r: Rendered, post: string): Rendered {
    r.(sql := pre + r.sql + post)
  }

  function NoPieces(p: nat): Pieces {
    Pieces([], [], p)
  }

  function One(r: Rendered): Pieces {
    Pieces([r.sql], r.args, r.next)
  }

  function Append(a: Pieces, b: Pieces): Pieces {
    Pieces(a.parts + b.parts, a.args + b.args, b.next)
  }

  function Joined(l: Pieces, sep: string): Rendered {
    Rendered(Join(l.parts, sep), l.args, l.next)
  }

  /** A clause that is left out when it has no pieces. */
  function Section(keyword: string, l: Pieces, sep: string): Pieces {
    if l.parts == [] then l else One(Wrap(keyword, Joined(l, sep), ""))
  }

  function Texts(parts: seq<string>, p: nat): Pieces {
    Pieces(parts, [], p)
  }

  function PlaceholderPieces(d: Dialect, p: nat, values: seq<Value>): (l: Pieces)
    ensures l.args == values && l.next == p + |values|
    decreases values
  {
    if values == [] then NoPieces(p)
    else Append(One(Rendered(Placeholder(d, p), [values[0]], p + 1)), PlaceholderPieces(d, p + 1, values[1..]))
  }

  /** The first `?` replaced |args| times, by the placeholders from p on. */
  function FillRaw(d: Dialect, sql: string, p: nat, n: nat): string
    decreases n
  {
    if n == 0 then sql else FillRaw(d, ReplaceFirst(sql, "?", Placeholder(d, p)), p + 1, n - 1)
  }

  /** %q for printable text. */
  function GoQuoted(s: string): string {
    "\"" + GoEscaped(s) + "\""
  }

  function GoEscaped(s: string): string {
    if s == "" then ""
    else (if s[0] == '"' || s[0] == '\\' then ['\\', s[0]] else [s[0]]) + GoEscaped(s[1..])
  }

  function InOpen(negate: bool): string {
    if negate then " NOT IN (" else " IN ("
  }

  function ExistsOpen(negate: bool): string {
    if negate then "NOT EXISTS (" else "EXISTS ("
  }

  function InSubqueryError(column: string, err: string): string {
    "/* ERROR: InSubquery" + " build failed for column " + GoQuoted(column) + ": " + err + " */ 1=0"
  }

  function ExistsError(negate: bool, err: string): string {
    "/* ERROR: " + (if negate then "NOT EXISTS" else "EXISTS") + " build failed: " + err + " */ 1=0"
  }

  function TableText(d: Dialect, table: string, alias: string): string {
    Quote(d, table) + if alias != "" then " AS " + Quote(d, alias) else ""
  }

  function Direction(descending: bool): string {
    if descending then " DESC" else " ASC"
  }

  function OrderTexts(d: Dialect, order: seq<OrderColumn>): seq<string> {
    seq(|order|, i requires 0 <= i < |order| => QuoteQualified(d, order[i].column) + Direction(order[i].descending))
  }

  function QualifiedTexts(d: Dialect, names: seq<string>): seq<string> {
    seq(|names|, i requires 0 <= i < |names| => QuoteQualified(d, names[i]))
  }

  function SelectKeyword(s: Select): string {
    if s.distinct then "SELECT DISTINCT" else "SELECT"
  }

  function FromTexts(d: Dialect, s: Select): seq<string> {
    if s.table == "" then [] else ["FROM " + TableText(d, s.table, s.tableAlias)]
  }

  function LimitTexts(s: Select): seq<string> {
    if LimitOffset(s.limit, s.offset) == "" then [] else [LimitOffset(s.limit, s.offset)]
  }

  // ------------------------------------------------------------- rendering

  /** ToSQL of every node: text with placeholders from p, arguments, next. */
  function Render(d: Dialect, n: Node, p: nat): (r: Rendered)
    requires p >= 1
    ensures r.next == p + |r.args|
    decreases n
  {
    match n
    case Invalid(_) => Text("", p)
    case Comparison(column, operator, value) =>
      Rendered(QuoteQualified(d, column) + " " + operator + " " + Placeholder(d, p), [value], p + 1)
    case ILike(column, pattern) =>
      if d.Postgres? then
        Rendered(QuoteQualified(d, column) + " ILIKE " + Placeholder(d, p), [StringValue(pattern)], p + 1)
      else
        Rendered("LOWER(" + QuoteQualified(d, column) + ") LIKE LOWER(" + Placeholder(d, p) + ")", [StringValue(pattern)], p + 1)
    case NullTest(column, isNull) =>
      Text(QuoteQualified(d, column) + if isNull then " IS NULL" else " IS NOT NULL", p)
    case InList(column, values, notIn) =>
      if values == [] then Text(if notIn then "1=1" else "1=0", p)
      else Wrap(QuoteQualified(d, column) + InOpen(notIn),
                Joined(PlaceholderPieces(d, p, values), ", "), ")")
    case Between(column, start, end) =>
      Wrap(QuoteQualified(d, column) + " BETWEEN ", Joined(PlaceholderPieces(d, p, [start, end]), " AND "), "")
    case Logical(operator, conditions) =>
      if |conditions| == 0 then Text("1=1", p)
      else if |conditions| == 1 then Render(d, conditions[0], p)
      else Wrap("(", Joined(RenderAll(d, conditions, p), " " + operator + " "), ")")
    case Not(condition) => Wrap("NOT (", Render(d, condition, p), ")")
    case Raw(sql, args) => Rendered(FillRaw(d, sql, p, |args|), args, p + |args|)
    case ColumnComparison(col1, operator, col2) =>
      Text(QuoteQualified(d, col1) + " " + operator + " " + QuoteQualified(d, col2), p)
    case InSubquery(column, subquery, negate) =>
      (match Build(d, subquery)
       case BuildError(err) => Text(InSubqueryError(column, err), p)
       case Built(sql, args) =>
         Wrap(Quote(d, column) + InOpen(negate), Rendered(Renumber(d, sql, |args|, p), args, p + |args|), ")"))
    case Exists(subquery, negate) =>
      (match Build(d, subquery)
       case BuildError(err) => Text(ExistsError(negate, err), p)
       case Built(sql, args) =>
         Wrap(ExistsOpen(negate), Rendered(Renumber(d, sql, |args|, p), args, p + |args|), ")"))
    case Column(name) => Text(Quote(d, name), p)
    case Literal(value) => Rendered(Placeholder(d, p), [value], p + 1)
    case Keyword(text) => Text(text, p)
    case Call(open, operands) => Wrap(open, Joined(RenderAll(d, operands, p), ", "), ")")
    case Alias(expr, alias) => Wrap("", Render(d, expr, p), " AS " + Quote(d, alias))
    case Case(operand, whens, otherwise) =>
      var head := if operand.Some? then Wrap("CASE ", Render(d, operand.value, p), "") else Text("CASE", p);
      var middle := RenderAll(d, whens, head.next);
      var tail := if otherwise.Some? then One(Wrap("ELSE ", Render(d, otherwise.value, middle.next), "")) else NoPieces(middle.next);
      Joined(Append(Append(Append(One(head), middle), tail), Texts(["END"], tail.next)), " ")
    case Over(call, window) =>
      var c := Render(d, call, p);
      Wrap("", Joined(Append(One(c), One(Render(d, window, c.next))), " OVER ("), ")")
    case When(test, result) =>
      var t := Render(d, test, p);
      Wrap("WHEN ", Joined(Append(One(t), One(Render(d, result, t.next))), " THEN "), "")
    case Window(partitionBy, orderBy, frame) =>
      var parts := RenderAll(d, partitionBy, p);
      var order := RenderAll(d, orderBy, parts.next);
      Joined(Append(Append(Section("PARTITION BY ", parts, ", "), Section("ORDER BY ", order, ", ")),
                    Texts(if frame == "" then [] else [frame], order.next)), " ")
    case Ordered(expr, descending) => Wrap("", Render(d, expr, p), Direction(descending))
    case JoinOn(kind, table, alias, on) => Wrap(kind + " " + TableText(d, table, alias) + " ON ", Render(d, on, p), "")
    case CrossJoin(table, alias) => Text("CROSS JOIN " + TableText(d, table, alias), p)
  }

  function RenderAll(d: Dialect, ns: seq<Node>, p: nat): (l: Pieces)
    requires p >= 1
    ensures l.next == p + |l.args| && |l.parts| == |ns|
    decreases ns
  {
    if ns == [] then NoPieces(p)
    else
      var head := Render(d, ns[0], p);
      Append(One(head), RenderAll(d, ns[1..], head.next))
  }

  /** The first invalid node among the given ones. */
  function FirstInvalid(ns: seq<Node>): Option<string> {
    if ns == [] then None
    else if ns[0].Invalid? then Some(ns[0].err)
    else if ns[0].Ordered? && ns[0].expr.Invalid? then Some(ns[0].expr.err)
    else FirstInvalid(ns[1..])
  }

  /** The error Build stops at: one recorded by a builder method, or the first
      invalid node standing directly in a clause (joins are not looked at). */
  function SelectError(s: Select): Option<string> {
    if s.err.Some? then s.err
    else FirstInvalid(s.columnExprs + s.conditions + s.groupByExprs + s.having + s.orderByExprs)
  }

  /** SelectBuilder.Build: an error, or the clauses joined by blanks. */
  function Build(d: Dialect, s: Select): Built
    decreases s, 1
  {
    if SelectError(s).Some? then BuildError(SelectError(s).value)
    else
      var r := Joined(SelectPieces(d, s), " ");
      Built(r.sql, r.args)
  }

  /** Clause order, argument order and counter of a SELECT. */
  function SelectPieces(d: Dialect, s: Select): Pieces
    decreases s, 0
  {
    var columns := RenderAll(d, s.columnExprs, 1);
    var joins := RenderAll(d, s.joins, columns.next);
    var conditions := RenderAll(d, s.conditions, joins.next);
    var groups := RenderAll(d, s.groupByExprs, conditions.next);
    var having := RenderAll(d, s.having, groups.next);
    var order := RenderAll(d, s.orderByExprs, having.next);
    Statement(d, s, columns, joins, conditions, groups, having, order)
  }

  /** The clauses of a SELECT in printing order. */
  function Statement(d: Dialect, s: Select, columns: Pieces, joins: Pieces, conditions: Pieces,
                     groups: Pieces, having: Pieces, order: Pieces): Pieces {
    var selected := Append(Texts(QualifiedTexts(d, s.columns), 1), columns);
    var head :=
      if selected.parts == [] then Append(Texts([SelectKeyword(s) + " *"], 1), columns)
      else Section(SelectKeyword(s) + " ", selected, ", ");
    var a := Append(Append(head, Texts(FromTexts(d, s), columns.next)), joins);
    var b := Append(a, Section("WHERE ", conditions, " AND "));
    var c := Append(b, Section("GROUP BY ", Append(Texts(QualifiedTexts(d, s.groupBy), conditions.next), groups), ", "));
    var e := Append(c, Section("HAVING ", having, " AND "));
    var f := Append(e, Section("ORDER BY ", Append(Texts(OrderTexts(d, s.orderBy), having.next), order), ", "));
    Append(f, Texts(LimitTexts(s), order.next))
  }
}
