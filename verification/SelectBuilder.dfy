/** SelectBuilder (query/select.go, query/builder.go) and its name validation
    (query/validation.go). */
module Validation {
  import opened Options
  import opened SqlText
  import opened QueryTree

  const MAX_IDENTIFIER_LENGTH := 63
  const MAX_LIMIT_VALUE := 10000
  const MAX_OFFSET_VALUE := 1000000

  const SQL_RESERVED_WORDS: set<string> := {
    "SELECT", "INSERT", "UPDATE", "DELETE", "FROM",
    "WHERE", "JOIN", "LEFT", "RIGHT", "INNER",
    "OUTER", "ON", "AND", "OR", "NOT", "IN",
    "EXISTS", "BETWEEN", "LIKE", "IS", "NULL",
    "TRUE", "FALSE", "AS", "ORDER", "BY",
    "GROUP", "HAVING", "LIMIT", "OFFSET", "UNION",
    "ALL", "DISTINCT", "CASE", "WHEN", "THEN",
    "ELSE", "END", "CREATE", "DROP", "ALTER",
    "TABLE", "INDEX", "VIEW", "DATABASE", "SCHEMA",
    "PRIMARY", "KEY", "FOREIGN", "REFERENCES", "UNIQUE",
    "CHECK", "DEFAULT", "CASCADE", "RESTRICT", "SET",
    "VALUES", "INTO", "RETURNING", "WITH", "RECURSIVE",
    "OVER", "PARTITION", "ROWS", "RANGE", "UNBOUNDED",
    "PRECEDING", "FOLLOWING", "CURRENT", "ROW"
  }

  predicate IsLetter(c: char) {
    'a' <= c <= 'z' || 'A' <= c <= 'Z' || c == '_'
  }

  predicate MatchesIdentifierPattern(name: string) {
    && name != "" && IsLetter(name[0])
    && forall i :: 0 <= i < |name| ==> IsLetter(name[i]) || IsDigit(name[i])
  }

  function Upper(name: string): string {
    seq(|name|, i requires 0 <= i < |name| =>
      if 'a' <= name[i] <= 'z' then 'A' + (name[i] - 'a') else name[i])
  }

  /** None when the name is a safe identifier, else the error message. */
  function ValidateIdentifier(name: string): (err: Option<string>)
    ensures err.None? ==> Plain(name)
  {
    if name == "" then Some("identifier cannot be empty")
    else if |name| > MAX_IDENTIFIER_LENGTH then
      Some("identifier " + GoQuoted(name) + " exceeds maximum length of " + Decimal(MAX_IDENTIFIER_LENGTH) + " characters")
    else if !MatchesIdentifierPattern(name) then
      Some("identifier " + GoQuoted(name) + " contains invalid characters (must match [a-zA-Z_][a-zA-Z0-9_]*)")
    else if Upper(name) in SQL_RESERVED_WORDS then
      Some("identifier " + GoQuoted(name) + " is a SQL reserved word")
    else None
  }

  function ValidatePart(name: string, part: string): Option<string> {
    if part == "*" then None
    else
      match ValidateIdentifier(part)
      case None => None
      case Some(err) => Some("in qualified reference " + GoQuoted(name) + ": " + err)
  }

  /** Anything with a parenthesis passes as an expression. */
  predicate IsExpression(name: string) {
    '(' in name
  }

  /** A column, a table.column pair, `*`, or an expression. */
  function ValidateColumnReference(name: string): (err: Option<string>)
    ensures err.None? && !IsExpression(name) ==> Plain(name)
  {
    if name == "" then Some("column reference cannot be empty")
    else if IsExpression(name) then None
    else if '.' in name then
      var parts := SplitAtDots(name);
      if |parts| != 2 then
        Some("column reference " + GoQuoted(name) + " has invalid qualification (must be table.column)")
      else if ValidatePart(name, parts[0]).Some? then ValidatePart(name, parts[0])
      else
        SplitRejoins(name);
        assert ValidatePart(name, parts[1]).None? ==> Plain(parts[0] + "." + parts[1]) by {
          assert Plain(parts[0]);
          assert ValidatePart(name, parts[1]).None? ==> Plain(parts[1]);
        }
        ValidatePart(name, parts[1])
    else if name == "*" then None
    else ValidateIdentifier(name)
  }

  lemma {:induction false} SplitRejoins(name: string)
    ensures |SplitAtDots(name)| == 2 ==> name == SplitAtDots(name)[0] + "." + SplitAtDots(name)[1]
    ensures |SplitAtDots(name)| == 1 ==> name == SplitAtDots(name)[0]
  {
    if name != "" {
      SplitRejoins(name[1..]);
      assert name == [name[0]] + name[1..];
    }
  }

  function ValidateLimit(limit: int): Option<string> {
    if limit < 0 then Some("LIMIT cannot be negative: -" + Decimal(-limit))
    else if limit > MAX_LIMIT_VALUE then
      Some("LIMIT " + Decimal(limit) + " exceeds maximum allowed value of " + Decimal(MAX_LIMIT_VALUE))
    else None
  }

  function ValidateOffset(offset: int): Option<string> {
    if offset < 0 then Some("OFFSET cannot be negative: -" + Decimal(-offset))
    else if offset > MAX_OFFSET_VALUE then
      Some("OFFSET " + Decimal(offset) + " exceeds maximum allowed value of " + Decimal(MAX_OFFSET_VALUE))
    else None
  }

  /** The first error among column references. */
  function FirstBadColumn(names: seq<string>): (err: Option<string>)
    ensures err.None? ==> forall i :: 0 <= i < |names| ==> ValidateColumnReference(names[i]).None?
  {
    if names == [] then None
    else if ValidateColumnReference(names[0]).Some? then ValidateColumnReference(names[0])
    else
      assert names == [names[0]] + names[1..];
      FirstBadColumn(names[1..])
  }
}

module SelectBuilders {
  import opened Options
  import opened SqlText
  import opened QueryTree
  import opened QueryLoops
  import opened QueryMeaning
  import opened Validation

  /** A name that passed validation, or an expression that validation lets
      through. */
  predicate Accepted(name: string) {
    IsExpression(name) || Plain(name)
  }

  /** What the builder methods keep while they record no error. */
  ghost predicate NamesValidated(s: Select) {
    s.err.None? ==>
      && (forall i :: 0 <= i < |s.columns| ==> Accepted(s.columns[i]))
      && (forall i :: 0 <= i < |s.groupBy| ==> Accepted(s.groupBy[i]))
      && (forall i :: 0 <= i < |s.orderBy| ==> Accepted(s.orderBy[i].column))
      && Plain(s.table) && Plain(s.tableAlias)
      && (forall i :: 0 <= i < |s.joins| ==>
            (s.joins[i].JoinOn? ==> Plain(s.joins[i].kind) && Plain(s.joins[i].table) && Plain(s.joins[i].alias)) &&
            (s.joins[i].CrossJoin? ==> Plain(s.joins[i].table) && Plain(s.joins[i].alias)))
      && ValidateLimit(s.limit).None? && ValidateOffset(s.offset).None?
  }

  function FirstError(err: Option<string>, next: Option<string>): Option<string> {
    if err.Some? then err else next
  }

  function FullJoinError(d: Dialect): string {
    "FULL JOIN not supported by *" + if d.MySQL? then "mysql.MySQLDialect" else "sqlite.SQLiteDialect"
  }

  /** The conditions after Or: the last one is combined, an empty list begins. */
  function WithOr(conditions: seq<Node>, condition: Node): seq<Node> {
    if |conditions| == 0 then [condition]
    else conditions[..|conditions| - 1] + [Logical("OR", [conditions[|conditions| - 1], condition])]
  }

  class SelectBuilder {
    const dialect: Dialect
    var columns: seq<string>
    var columnExprs: seq<Node>
    var table: string
    var tableAlias: string
    var joins: seq<Node>
    var conditions: seq<Node>
    var groupBy: seq<string>
    var groupByExprs: seq<Node>
    var havingConditions: seq<Node>
    var orderBy: seq<OrderColumn>
    var orderByExprs: seq<Node>
    var limit: int
    var offset: int
    var distinct: bool
    var err: Option<string>

    /** The SELECT the builder stands for now. */
    function View(): Select
      reads this
    {
      Select(distinct, columns, columnExprs, table, tableAlias, joins, conditions, groupBy, groupByExprs,
             havingConditions, orderBy, orderByExprs, limit, offset, err)
    }

    constructor (d: Dialect, names: seq<string>)
      ensures dialect == d && NamesValidated(View())
      ensures View() == Select(false, names, [], "", "", [], [], [], [], [], [], [], 0, 0, FirstBadColumn(names))
    {
      dialect := d;
      columns, columnExprs, table, tableAlias, joins := names, [], "", "", [];
      conditions, groupBy, groupByExprs, havingConditions, orderBy, orderByExprs := [], [], [], [], [], [];
      limit, offset, distinct := 0, 0, false;
      err := FirstBadColumn(names);
    }

    method From(name: string)
      requires NamesValidated(View())
      modifies this
      ensures View() == old(View()).(table := name, err := FirstError(old(err), ValidateIdentifier(name)))
      ensures NamesValidated(View())
    {
      if err.None? { err := ValidateIdentifier(name); }
      table := name;
    }

    method As(alias: string)
      requires NamesValidated(View())
      modifies this
      ensures View() == old(View()).(tableAlias := alias, err := FirstError(old(err), ValidateIdentifier(alias)))
      ensures NamesValidated(View())
    {
      if err.None? { err := ValidateIdentifier(alias); }
      tableAlias := alias;
    }

    method Distinct()
      requires NamesValidated(View())
      modifies this
      ensures View() == old(View()).(distinct := true) && NamesValidated(View())
    {
      distinct := true;
    }

    method Where(condition: Node)
      requires NamesValidated(View())
      modifies this
      ensures View() == old(View()).(conditions := old(conditions) + [condition]) && NamesValidated(View())
    {
      conditions := conditions + [condition];
    }

    method And(condition: Node)
      requires NamesValidated(View())
      modifies this
      ensures View() == old(View()).(conditions := old(conditions) + [condition]) && NamesValidated(View())
    {
      conditions := conditions + [condition];
    }

    method Or(condition: Node)
      requires NamesValidated(View())
      modifies this
      ensures View() == old(View()).(conditions := WithOr(old(conditions), condition)) && NamesValidated(View())
    {
      if |conditions| == 0 {
        conditions := conditions + [condition];
        return;
      }
      var last := |conditions| - 1;
      conditions := conditions[last := Logical("OR", [conditions[last], condition])];
    }

    /** InnerJoin, LeftJoin, RightJoin, JoinAs and LeftJoinAs. */
    method JoinTable(kind: string, name: string, alias: string, on: Node)
      requires NamesValidated(View()) && Plain(kind)
      modifies this
      ensures
        var e := FirstError(FirstError(old(err), ValidateIdentifier(name)), if alias == "" then None else ValidateIdentifier(alias));
        View() == if e.Some? then old(View()).(err := e)
                  else old(View()).(joins := old(joins) + [JoinOn(kind, name, alias, on)])
      ensures NamesValidated(View())
    {
      if err.None? { err := ValidateIdentifier(name); }
      if err.None? && alias != "" { err := ValidateIdentifier(alias); }
      if err.Some? { return; }
      joins := joins + [JoinOn(kind, name, alias, on)];
    }

    method FullJoin(name: string, on: Node)
      requires NamesValidated(View())
      modifies this
      ensures
        var e := FirstError(old(err), if dialect.Postgres? then ValidateIdentifier(name) else Some(FullJoinError(dialect)));
        View() == if e.Some? then old(View()).(err := e)
                  else old(View()).(joins := old(joins) + [JoinOn("FULL OUTER JOIN", name, "", on)])
      ensures NamesValidated(View())
    {
      if err.None? {
        if !dialect.Postgres? {
          err := Some(FullJoinError(dialect));
          return;
        }
        err := ValidateIdentifier(name);
      }
      if err.Some? { return; }
      joins := joins + [JoinOn("FULL OUTER JOIN", name, "", on)];
    }

    method CrossJoinTable(name: string)
      requires NamesValidated(View())
      modifies this
      ensures
        var e := FirstError(old(err), ValidateIdentifier(name));
        View() == if e.Some? then old(View()).(err := e) else old(View()).(joins := old(joins) + [CrossJoin(name, "")])
      ensures NamesValidated(View())
    {
      if err.None? { err := ValidateIdentifier(name); }
      if err.Some? { return; }
      joins := joins + [CrossJoin(name, "")];
    }

    method SelectExpr(exprs: seq<Node>)
      requires NamesValidated(View())
      modifies this
      ensures View() == old(View()).(columnExprs := old(columnExprs) + exprs) && NamesValidated(View())
    {
      columnExprs := columnExprs + exprs;
    }

    method OrderBy(column: string, descending: bool)
      requires NamesValidated(View())
      modifies this
      ensures View() == old(View()).(orderBy := old(orderBy) + [OrderColumn(column, descending)],
                                     err := FirstError(old(err), ValidateColumnReference(column)))
      ensures NamesValidated(View())
    {
      if err.None? { err := ValidateColumnReference(column); }
      orderBy := orderBy + [OrderColumn(column, descending)];
    }

    method OrderByExpr(expr: Node, descending: bool)
      requires NamesValidated(View())
      modifies this
      ensures View() == old(View()).(orderByExprs := old(orderByExprs) + [Ordered(expr, descending)]) && NamesValidated(View())
    {
      orderByExprs := orderByExprs + [Ordered(expr, descending)];
    }

    /** A bad column is recorded and none of the columns is added; with an
        earlier error the columns are added unchecked. */
    method GroupBy(names: seq<string>)
      requires NamesValidated(View())
      modifies this
      ensures View() == if old(err).None? && FirstBadColumn(names).Some? then old(View()).(err := FirstBadColumn(names))
                        else old(View()).(groupBy := old(groupBy) + names)
      ensures NamesValidated(View())
    {
      for i := 0 to |names|
        invariant err == old(err) && View() == old(View())
        invariant err.None? ==> FirstBadColumn(names) == FirstBadColumn(names[i..])
      {
        if err.None? {
          assert names[i..][1..] == names[i + 1..];
          err := ValidateColumnReference(names[i]);
          if err.Some? { return; }
        }
      }
      groupBy := groupBy + names;
    }

    method GroupByExpr(exprs: seq<Node>)
      requires NamesValidated(View())
      modifies this
      ensures View() == old(View()).(groupByExprs := old(groupByExprs) + exprs) && NamesValidated(View())
    {
      groupByExprs := groupByExprs + exprs;
    }

    method Having(condition: Node)
      requires NamesValidated(View())
      modifies this
      ensures View() == old(View()).(having := old(havingConditions) + [condition]) && NamesValidated(View())
    {
      havingConditions := havingConditions + [condition];
    }

    method Limit(n: int)
      requires NamesValidated(View())
      modifies this
      ensures View() == old(View()).(limit := n, err := FirstError(old(err), ValidateLimit(n))) && NamesValidated(View())
    {
      if err.None? { err := ValidateLimit(n); }
      limit := n;
    }

    method Offset(n: int)
      requires NamesValidated(View())
      modifies this
      ensures View() == old(View()).(offset := n, err := FirstError(old(err), ValidateOffset(n))) && NamesValidated(View())
    {
      if err.None? { err := ValidateOffset(n); }
      offset := n;
    }

    /** SELECT, FROM, joins and WHERE, the empty ones left out. */
    method LeadingClauses(exprParts: seq<string>, joinParts: seq<string>, whereParts: seq<string>) returns (parts: seq<string>)
      requires |whereParts| == |conditions|
      ensures parts == LeadingParts(dialect, View(), exprParts, joinParts, whereParts)
    {
      var columnParts := QualifiedTexts(dialect, columns) + exprParts;
      parts := [SelectText(dialect, View(), columnParts)];
      if table != "" {
        parts := parts + ["FROM " + TableText(dialect, table, tableAlias)];
      }
      parts := parts + joinParts;
      if |conditions| > 0 {
        parts := parts + ["WHERE " + Join(whereParts, " AND ")];
      }
    }

    /** GROUP BY, HAVING, ORDER BY and LIMIT, the empty ones left out. */
    method TrailingClauses(parts: seq<string>, groupParts: seq<string>, havingParts: seq<string>, orderParts: seq<string>)
      returns (all: seq<string>)
      requires |groupParts| == |groupByExprs| && |havingParts| == |havingConditions| && |orderParts| == |orderByExprs|
      ensures all == parts + TrailingParts(dialect, View(), groupParts, havingParts, orderParts)
    {
      var groups := QualifiedTexts(dialect, groupBy) + groupParts;
      var order := OrderTexts(dialect, orderBy) + orderParts;
      assert |groupBy| > 0 || |groupByExprs| > 0 <==> groups != [];
      assert |orderBy| > 0 || |orderByExprs| > 0 <==> order != [];
      all := AddSection(parts, |groupBy| > 0 || |groupByExprs| > 0, "GROUP BY ", groups, ", ");
      all := AddSection(all, |havingConditions| > 0, "HAVING ", havingParts, " AND ");
      all := AddSection(all, |orderBy| > 0 || |orderByExprs| > 0, "ORDER BY ", order, ", ");
      all := AddLimit(all);
      Regroup(parts, SectionTexts(groups != [], "GROUP BY ", groups, ", "), SectionTexts(havingParts != [], "HAVING ", havingParts, " AND "),
              SectionTexts(order != [], "ORDER BY ", order, ", "), LimitTexts(View()));
    }

    method AddSection(parts: seq<string>, present: bool, keyword: string, texts: seq<string>, sep: string) returns (all: seq<string>)
      ensures all == parts + SectionTexts(present, keyword, texts, sep)
    {
      all := parts;
      if present {
        all := all + [keyword + Join(texts, sep)];
      } else {
        assert parts + [] == parts;
      }
    }

    method AddLimit(parts: seq<string>) returns (all: seq<string>)
      ensures all == parts + LimitTexts(View())
    {
      all := parts;
      assert parts + [] == parts;
      if limit > 0 || offset > 0 {
        var limitOffsetClause := LimitOffset(limit, offset);
        if limitOffsetClause != "" {
          all := all + [limitOffsetClause];
        }
      }
    }

    method BuildStatement() returns (b: Built)
      ensures b == Build(dialect, View())
    {
      if err.Some? { return BuildError(err.value); }
      ErrorByClause(View());
      var exprParts, exprArgs, p1, e1 := RenderNodes(dialect, columnExprs, 1, true);
      if e1.Some? { return BuildError(e1.value); }
      var joinParts, joinArgs, p2, _ := RenderNodes(dialect, joins, p1, false);
      var whereParts, whereArgs, p3, e3 := RenderNodes(dialect, conditions, p2, true);
      if e3.Some? { return BuildError(e3.value); }
      var groupParts, groupArgs, p4, e4 := RenderNodes(dialect, groupByExprs, p3, true);
      if e4.Some? { return BuildError(e4.value); }
      var havingParts, havingArgs, p5, e5 := RenderNodes(dialect, havingConditions, p4, true);
      if e5.Some? { return BuildError(e5.value); }
      var orderParts, orderArgs, p6, e6 := RenderNodes(dialect, orderByExprs, p5, true);
      if e6.Some? { return BuildError(e6.value); }

      var parts := LeadingClauses(exprParts, joinParts, whereParts);
      parts := TrailingClauses(parts, groupParts, havingParts, orderParts);
      StatementText(dialect, View(), Pieces(exprParts, exprArgs, p1), Pieces(joinParts, joinArgs, p2),
                    Pieces(whereParts, whereArgs, p3), Pieces(groupParts, groupArgs, p4),
                    Pieces(havingParts, havingArgs, p5), Pieces(orderParts, orderArgs, p6));
      b := Built(Join(parts, " "), exprArgs + joinArgs + whereArgs + groupArgs + havingArgs + orderArgs);
    }
  }

  lemma {:induction false} FirstInvalidConcat(a: seq<Node>, b: seq<Node>)
    ensures FirstInvalid(a + b) == FirstError(FirstInvalid(a), FirstInvalid(b))
  {
    if a == [] {
      assert a + b == b;
    } else {
      assert (a + b)[1..] == a[1..] + b;
      FirstInvalidConcat(a[1..], b);
    }
  }

  /** Clause by clause, the first error is the one Build stops at. */
  lemma ErrorByClause(s: Select)
    requires s.err.None?
    ensures SelectError(s) ==
            FirstError(FirstError(FirstError(FirstError(FirstInvalid(s.columnExprs), FirstInvalid(s.conditions)),
                                             FirstInvalid(s.groupByExprs)), FirstInvalid(s.having)), FirstInvalid(s.orderByExprs))
  {
    var a := s.columnExprs + s.conditions;
    FirstInvalidConcat(s.columnExprs, s.conditions);
    FirstInvalidConcat(a, s.groupByExprs);
    FirstInvalidConcat(a + s.groupByExprs, s.having);
    FirstInvalidConcat(a + s.groupByExprs + s.having, s.orderByExprs);
  }

  function SectionTexts(present: bool, keyword: string, parts: seq<string>, sep: string): seq<string> {
    if present then [keyword + Join(parts, sep)] else []
  }

  lemma AppendSection(l: Pieces, keyword: string, m: Pieces, sep: string)
    ensures Append(l, Section(keyword, m, sep)) == Pieces(l.parts + SectionTexts(m.parts != [], keyword, m.parts, sep), l.args + m.args, m.next)
  {
    assert keyword + Join(m.parts, sep) + "" == keyword + Join(m.parts, sep);
  }

  lemma AppendClause(l: Pieces, keyword: string, texts: seq<string>, m: Pieces, p: nat)
    ensures Append(l, Section(keyword, Append(Texts(texts, p), m), ", ")) ==
            Pieces(l.parts + SectionTexts(texts + m.parts != [], keyword, texts + m.parts, ", "), l.args + m.args, m.next)
  {
    AppendSection(l, keyword, Append(Texts(texts, p), m), ", ");
    assert [] + m.args == m.args;
  }

  /** The text of the SELECT list. */
  function SelectText(d: Dialect, s: Select, columnParts: seq<string>): string {
    SelectKeyword(s) + if |columnParts| == 0 then " *" else " " + Join(columnParts, ", ")
  }

  lemma HeadText(d: Dialect, s: Select, columns: Pieces)
    ensures
      var selected := Append(Texts(QualifiedTexts(d, s.columns), 1), columns);
      var head := if selected.parts == [] then Append(Texts([SelectKeyword(s) + " *"], 1), columns)
                  else Section(SelectKeyword(s) + " ", selected, ", ");
      head == Pieces([SelectText(d, s, QualifiedTexts(d, s.columns) + columns.parts)], columns.args, columns.next)
  {
    var selected := Append(Texts(QualifiedTexts(d, s.columns), 1), columns);
    assert [] + columns.args == columns.args;
    if selected.parts != [] {
      var list := Join(selected.parts, ", ");
      assert (SelectKeyword(s) + " ") + list + "" == SelectKeyword(s) + (" " + list);
    }
  }

  lemma Regroup(a: seq<string>, g: seq<string>, h: seq<string>, o: seq<string>, l: seq<string>)
    ensures (((a + g) + h) + o) + l == a + (g + h + o + l)
  {}

  lemma TrailingText(d: Dialect, s: Select, b: Pieces, groups: Pieces, having: Pieces, order: Pieces)
    ensures
      var c := Append(b, Section("GROUP BY ", Append(Texts(QualifiedTexts(d, s.groupBy), b.next), groups), ", "));
      var e := Append(c, Section("HAVING ", having, " AND "));
      var f := Append(e, Section("ORDER BY ", Append(Texts(OrderTexts(d, s.orderBy), having.next), order), ", "));
      Append(f, Texts(LimitTexts(s), order.next)) ==
      Pieces(b.parts + TrailingParts(d, s, groups.parts, having.parts, order.parts), b.args + groups.args + having.args + order.args, order.next)
  {
    AppendClause(b, "GROUP BY ", QualifiedTexts(d, s.groupBy), groups, b.next);
    var c := Append(b, Section("GROUP BY ", Append(Texts(QualifiedTexts(d, s.groupBy), b.next), groups), ", "));
    AppendSection(c, "HAVING ", having, " AND ");
    var e := Append(c, Section("HAVING ", having, " AND "));
    AppendClause(e, "ORDER BY ", OrderTexts(d, s.orderBy), order, having.next);
    var gs, os := QualifiedTexts(d, s.groupBy) + groups.parts, OrderTexts(d, s.orderBy) + order.parts;
    Regroup(b.parts, SectionTexts(gs != [], "GROUP BY ", gs, ", "), SectionTexts(having.parts != [], "HAVING ", having.parts, " AND "),
            SectionTexts(os != [], "ORDER BY ", os, ", "), LimitTexts(s));
    var args := b.args + groups.args + having.args + order.args;
    assert args + [] == args;
  }

  /** The statement as one list of clause texts and one list of arguments. */
  lemma StatementText(d: Dialect, s: Select, columns: Pieces, joins: Pieces, conditions: Pieces, groups: Pieces, having: Pieces, order: Pieces)
    ensures Statement(d, s, columns, joins, conditions, groups, having, order) ==
            Pieces(LeadingParts(d, s, columns.parts, joins.parts, conditions.parts)
                   + TrailingParts(d, s, groups.parts, having.parts, order.parts),
                   columns.args + joins.args + conditions.args + groups.args + having.args + order.args, order.next)
  {
    HeadText(d, s, columns);
    var a := Pieces([SelectText(d, s, QualifiedTexts(d, s.columns) + columns.parts)] + FromTexts(d, s) + joins.parts,
                    columns.args + joins.args, joins.next);
    assert columns.args + [] == columns.args;
    AppendSection(a, "WHERE ", conditions, " AND ");
    var b := Append(a, Section("WHERE ", conditions, " AND "));
    TrailingText(d, s, b, groups, having, order);
  }

  function LeadingParts(d: Dialect, s: Select, exprParts: seq<string>, joinParts: seq<string>, whereParts: seq<string>): seq<string> {
    [SelectText(d, s, QualifiedTexts(d, s.columns) + exprParts)] + FromTexts(d, s) + joinParts
    + SectionTexts(whereParts != [], "WHERE ", whereParts, " AND ")
  }

  function TrailingParts(d: Dialect, s: Select, groupParts: seq<string>, havingParts: seq<string>, orderParts: seq<string>): seq<string> {
    var groups := QualifiedTexts(d, s.groupBy) + groupParts;
    var order := OrderTexts(d, s.orderBy) + orderParts;
    SectionTexts(groups != [], "GROUP BY ", groups, ", ")
    + SectionTexts(havingParts != [], "HAVING ", havingParts, " AND ")
    + SectionTexts(order != [], "ORDER BY ", order, ", ")
    + LimitTexts(s)
  }

  /** No expression typed in the place of a name holds a placeholder sign. */
  ghost predicate ExpressionsArePlain(s: Select) {
    && (forall i :: 0 <= i < |s.columns| && IsExpression(s.columns[i]) ==> Plain(s.columns[i]))
    && (forall i :: 0 <= i < |s.groupBy| && IsExpression(s.groupBy[i]) ==> Plain(s.groupBy[i]))
    && (forall i :: 0 <= i < |s.orderBy| && IsExpression(s.orderBy[i].column) ==> Plain(s.orderBy[i].column))
  }

  /** What the builder accepted meets the conditions of the numbering results:
      only the trees it was given must be tidy themselves. */
  lemma ValidatedIsTidy(s: Select)
    requires NamesValidated(s) && s.err.None? && ExpressionsArePlain(s)
    requires TidyAll(s.columnExprs) && TidyAll(s.joins) && TidyAll(s.conditions)
    requires TidyAll(s.groupByExprs) && TidyAll(s.having) && TidyAll(s.orderByExprs)
    ensures TidySelect(s)
  {}
}
