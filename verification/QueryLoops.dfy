/** The ToSQL methods that loop over children, in the form the source gives
    them: a running counter, a growing list of parts and of arguments. Each is
    proved to return what `Render` says. */
module QueryLoops {
  import opened Options
  import opened SqlText
  import opened QueryTree

  lemma AppendOne(done: Pieces, d: Dialect, ns: seq<Node>)
    requires ns != [] && done.next >= 1
    ensures
      var head := Render(d, ns[0], done.next);
      Append(done, RenderAll(d, ns, done.next)) ==
      Append(Pieces(done.parts + [head.sql], done.args + head.args, head.next), RenderAll(d, ns[1..], head.next))
  {
    var head := Render(d, ns[0], done.next);
    var rest := RenderAll(d, ns[1..], head.next);
    assert RenderAll(d, ns, done.next) == Append(One(head), rest);
    assert done.parts + ([head.sql] + rest.parts) == done.parts + [head.sql] + rest.parts;
    assert done.args + (head.args + rest.args) == done.args + head.args + rest.args;
  }

  /** The loop shared by AND/OR lists, function operands, WHEN lists, window
      clauses and the clauses of a SELECT. A checked list stops at the first
      invalid node. */
  method RenderNodes(d: Dialect, nodes: seq<Node>, paramStart: nat, checked: bool)
    returns (parts: seq<string>, allArgs: seq<Value>, currentParam: nat, err: Option<string>)
    requires paramStart >= 1
    ensures err == if checked then FirstInvalid(nodes) else None
    ensures err.None? ==> Pieces(parts, allArgs, currentParam) == RenderAll(d, nodes, paramStart)
  {
    parts, allArgs, currentParam, err := [], [], paramStart, None;
    var i := 0;
    while i < |nodes|
      invariant 0 <= i <= |nodes| && currentParam >= 1
      invariant checked ==> FirstInvalid(nodes[i..]) == FirstInvalid(nodes)
      invariant Append(Pieces(parts, allArgs, currentParam), RenderAll(d, nodes[i..], currentParam)) ==
                RenderAll(d, nodes, paramStart)
    {
      var node := nodes[i];
      assert nodes[i..][0] == node && nodes[i..][1..] == nodes[i + 1..];
      if checked && node.Invalid? {
        return parts, allArgs, currentParam, Some(node.err);
      }
      if checked && node.Ordered? && node.expr.Invalid? {
        return parts, allArgs, currentParam, Some(node.expr.err);
      }
      AppendOne(Pieces(parts, allArgs, currentParam), d, nodes[i..]);
      var r := Render(d, node, currentParam);
      parts := parts + [r.sql];
      allArgs := allArgs + r.args;
      currentParam := r.next;
      i := i + 1;
    }
  }

  method LogicalToSQL(d: Dialect, operator: string, conditions: seq<Node>, paramStart: nat) returns (r: Rendered)
    requires paramStart >= 1
    ensures r == Render(d, Logical(operator, conditions), paramStart)
  {
    if |conditions| == 0 {
      return Rendered("1=1", [], paramStart);
    }
    if |conditions| == 1 {
      return Render(d, conditions[0], paramStart);
    }
    var parts, allArgs, currentParam, _ := RenderNodes(d, conditions, paramStart, false);
    r := Rendered("(" + Join(parts, " " + operator + " ") + ")", allArgs, currentParam);
  }

  method InToSQL(d: Dialect, column: string, values: seq<Value>, notIn: bool, paramStart: nat) returns (r: Rendered)
    requires paramStart >= 1
    ensures r == Render(d, InList(column, values, notIn), paramStart)
  {
    if |values| == 0 {
      return Rendered(if notIn then "1=1" else "1=0", [], paramStart);
    }
    var placeholders := PlaceholderList(d, paramStart, values);
    r := Rendered(QuoteQualified(d, column) + InOpen(notIn) + Join(placeholders, ", ") + ")", values, paramStart + |values|);
  }

  function PlaceholderTexts(d: Dialect, p: nat, n: nat): seq<string> {
    seq(n, i requires 0 <= i < n => Placeholder(d, p + i))
  }

  method PlaceholderList(d: Dialect, paramStart: nat, values: seq<Value>) returns (placeholders: seq<string>)
    ensures placeholders == PlaceholderPieces(d, paramStart, values).parts
  {
    placeholders := [];
    for i := 0 to |values|
      invariant placeholders == PlaceholderTexts(d, paramStart, i)
    {
      placeholders := placeholders + [Placeholder(d, paramStart + i)];
    }
    PlaceholdersAre(d, paramStart, values);
  }

  lemma {:induction false} PlaceholdersAre(d: Dialect, p: nat, values: seq<Value>)
    ensures PlaceholderPieces(d, p, values).parts == PlaceholderTexts(d, p, |values|)
    decreases |values|
  {
    if values != [] {
      PlaceholdersAre(d, p + 1, values[1..]);
      assert PlaceholderTexts(d, p, |values|) == [Placeholder(d, p)] + PlaceholderTexts(d, p + 1, |values| - 1);
    }
  }

  method RawToSQL(d: Dialect, sql: string, args: seq<Value>, paramStart: nat) returns (r: Rendered)
    requires paramStart >= 1
    ensures r == Render(d, Raw(sql, args), paramStart)
  {
    var result, currentParam := sql, paramStart;
    for i := 0 to |args|
      invariant currentParam == paramStart + i
      invariant FillRaw(d, result, currentParam, |args| - i) == FillRaw(d, sql, paramStart, |args|)
    {
      result := ReplaceFirst(result, "?", Placeholder(d, currentParam));
      currentParam := currentParam + 1;
    }
    r := Rendered(result, args, currentParam);
  }

  /** CONCAT, COALESCE and every other call. */
  method CallToSQL(d: Dialect, open: string, operands: seq<Node>, paramStart: nat) returns (r: Rendered)
    requires paramStart >= 1
    ensures r == Render(d, Call(open, operands), paramStart)
  {
    var parts, allArgs, currentParam, _ := RenderNodes(d, operands, paramStart, false);
    r := Rendered(open + Join(parts, ", ") + ")", allArgs, currentParam);
  }

  method CaseToSQL(d: Dialect, operand: Option<Node>, whens: seq<Node>, otherwise: Option<Node>, paramStart: nat)
    returns (r: Rendered)
    requires paramStart >= 1
    ensures r == Render(d, Case(operand, whens, otherwise), paramStart)
  {
    var parts: seq<string>, allArgs: seq<Value>, currentParam := ["CASE"], [], paramStart;
    if operand.Some? {
      var c := Render(d, operand.value, currentParam);
      parts, allArgs, currentParam := ["CASE " + c.sql], c.args, c.next;
      assert "CASE " + c.sql + "" == "CASE " + c.sql;
    }
    var whenParts, whenArgs, afterWhens, _ := RenderNodes(d, whens, currentParam, false);
    parts, allArgs, currentParam := parts + whenParts, allArgs + whenArgs, afterWhens;
    assert parts + [] == parts && allArgs + [] == allArgs;
    if otherwise.Some? {
      var e := Render(d, otherwise.value, currentParam);
      parts, allArgs, currentParam := parts + ["ELSE " + e.sql], allArgs + e.args, e.next;
      assert "ELSE " + e.sql + "" == "ELSE " + e.sql;
    }
    parts := parts + ["END"];
    assert allArgs + [] == allArgs;
    r := Rendered(Join(parts, " "), allArgs, currentParam);
  }

  /** A frame of no type is none. */
  function FrameText(frameType: string, frameStart: string, frameEnd: string): string {
    if frameType == "" then "" else frameType + " BETWEEN " + frameStart + " AND " + frameEnd
  }

  method WindowToSQL(d: Dialect, partitionBy: seq<Node>, orderBy: seq<Node>, frameType: string, frameStart: string, frameEnd: string, paramStart: nat)
    returns (r: Rendered)
    requires paramStart >= 1
    ensures r == Render(d, Window(partitionBy, orderBy, FrameText(frameType, frameStart, frameEnd)), paramStart)
  {
    var parts: seq<string>, allArgs: seq<Value>, currentParam := [], [], paramStart;
    if |partitionBy| > 0 {
      var byParts, byArgs, afterBy, _ := RenderNodes(d, partitionBy, currentParam, false);
      parts, allArgs, currentParam := ["PARTITION BY " + Join(byParts, ", ")], byArgs, afterBy;
      assert "PARTITION BY " + Join(byParts, ", ") + "" == "PARTITION BY " + Join(byParts, ", ");
    }
    assert parts + [] == parts && allArgs + [] == allArgs;
    if |orderBy| > 0 {
      var orderParts, orderArgs, afterOrder, _ := RenderNodes(d, orderBy, currentParam, false);
      parts, allArgs, currentParam := parts + ["ORDER BY " + Join(orderParts, ", ")], allArgs + orderArgs, afterOrder;
      assert "ORDER BY " + Join(orderParts, ", ") + "" == "ORDER BY " + Join(orderParts, ", ");
    }
    assert parts + [] == parts && allArgs + [] == allArgs;
    if frameType != "" {
      parts := parts + [frameType + " BETWEEN " + frameStart + " AND " + frameEnd];
    }
    r := Rendered(Join(parts, " "), allArgs, currentParam);
  }
}
