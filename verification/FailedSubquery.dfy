/** A nested SELECT that does not build (query/subquery.go:51-58, 92-102): its
    condition becomes a comment that says why, and a comparison that is false. */
module FailedSubqueries {
  import opened Options
  import opened SqlText
  import opened QueryTree

  // --------------------------------------------------- reading past a comment

  /** What stands behind the comment a text begins with. */
  function BehindComment(s: string): Option<string> {
    if "/*" <= s then AfterEnd(s[2..]) else None
  }

  function AfterEnd(s: string): Option<string> {
    if s == "" then None else if "*/" <= s then Some(s[2..]) else AfterEnd(s[1..])
  }

  predicate EndsAt(s: string, i: nat) {
    i + 1 < |s| && s[i] == '*' && s[i + 1] == '/'
  }

  /** Nothing in the text would end a comment. */
  predicate NoEnd(s: string) {
    forall i: nat :: i < |s| ==> !EndsAt(s, i)
  }

  lemma NoEndTail(s: string)
    requires s != ""
    ensures NoEnd(s) <==> !("*/" <= s) && NoEnd(s[1..])
  {
    var t := s[1..];
    if NoEnd(s) {
      assert !EndsAt(s, 0);
      forall i: nat | i < |t| ensures !EndsAt(t, i) { assert !EndsAt(s, i + 1); }
    }
    if !("*/" <= s) && NoEnd(t) {
      forall i: nat | i < |s| ensures !EndsAt(s, i) { if i > 0 && EndsAt(s, i) { assert EndsAt(t, i - 1); } }
    }
  }

  /** A comment whose text ends in a blank is read to its own end exactly when
      nothing in it ends it before. */
  lemma {:induction false} CommentIsSkipped(body: string, rest: string)
    requires body != "" && body[|body| - 1] == ' '
    ensures AfterEnd(body + ("*/" + rest)) == Some(rest) <==> NoEnd(body)
    decreases |body|
  {
    var s := body + ("*/" + rest);
    NoEndTail(body);
    if |body| == 1 {
      assert s[1..] == "*/" + rest && ("*/" + rest)[2..] == rest;
    } else {
      assert s[1..] == body[1..] + ("*/" + rest);
      CommentIsSkipped(body[1..], rest);
      assert s[0] == body[0] && s[1] == body[1];
    }
  }

  // --------------------------------------------------- the parts of the message

  lemma EndsInPart(a: string, b: string, i: nat)
    requires EndsAt(a + b, i) && (a == "" || b == "" || a[|a| - 1] != '*' || b[0] != '/')
    ensures EndsAt(a, i) || (i >= |a| && EndsAt(b, i - |a|))
  {}

  /** Two texts that do not end a comment where they meet. */
  lemma NoEndJoin(a: string, b: string)
    requires a == "" || b == "" || a[|a| - 1] != '*' || b[0] != '/'
    ensures NoEnd(a + b) <==> NoEnd(a) && NoEnd(b)
  {
    if NoEnd(a + b) {
      forall i: nat | i < |a| ensures !EndsAt(a, i) { assert !EndsAt(a + b, i); }
      forall i: nat | i < |b| ensures !EndsAt(b, i) { assert !EndsAt(a + b, |a| + i); }
    } else {
      var i: nat :| i < |a + b| && EndsAt(a + b, i);
      EndsInPart(a, b, i);
    }
  }

  lemma {:induction false} EscapedEnds(s: string)
    ensures NoEnd(GoEscaped(s)) <==> NoEnd(s)
    ensures s != "" ==> GoEscaped(s) != "" && (GoEscaped(s)[0] == '/' <==> s[0] == '/')
  {
    if s != "" {
      var first, rest := if s[0] == '"' || s[0] == '\\' then ['\\', s[0]] else [s[0]], GoEscaped(s[1..]);
      EscapedEnds(s[1..]);
      NoEndTail(s);
      if s[0] == '*' {
        NoEndTail(GoEscaped(s));
        assert GoEscaped(s)[1..] == rest;
      } else {
        NoEndJoin(first, rest);
      }
    }
  }

  // --------------------------------------------------- main result

  /** What the database is told of a nested SELECT that does not build. */
  function Message(n: Node): string
    requires n.InSubquery? || n.Exists?
  {
    var err := if SelectError(n.subquery).Some? then SelectError(n.subquery).value else "";
    if n.InSubquery? then " ERROR: InSubquery" + " build failed for column " + GoQuoted(n.column) + ": " + err + " "
    else " ERROR: " + (if n.negate then "NOT EXISTS" else "EXISTS") + " build failed: " + err + " "
  }

  lemma InText(column: string, err: string)
    ensures InSubqueryError(column, err) ==
            "/*" + ((" ERROR: InSubquery" + " build failed for column " + GoQuoted(column) + ": " + err + " ") + ("*/" + " 1=0"))
  {
    assert "/*" + " ERROR: InSubquery" == "/* ERROR: InSubquery";
    assert " " + ("*/" + " 1=0") == " */ 1=0";
  }

  lemma ExistsErrorText(negate: bool, err: string)
    ensures ExistsError(negate, err) ==
            "/*" + ((" ERROR: " + (if negate then "NOT EXISTS" else "EXISTS") + " build failed: " + err + " ") + ("*/" + " 1=0"))
  {
    assert "/*" + " ERROR: " == "/* ERROR: ";
    assert " " + ("*/" + " 1=0") == " */ 1=0";
  }

  lemma FailedText(d: Dialect, n: Node, p: nat)
    requires p >= 1 && (n.InSubquery? || n.Exists?) && SelectError(n.subquery).Some?
    ensures Render(d, n, p).sql == "/*" + (Message(n) + ("*/" + " 1=0")) && Render(d, n, p).args == []
  {
    var err := SelectError(n.subquery).value;
    assert Build(d, n.subquery) == BuildError(err);
    if n.InSubquery? { InText(n.column, err); } else { ExistsErrorText(n.negate, err); }
  }

  /** A text after a fixed one and before a blank. */
  lemma NoEndWithin(head: string, text: string)
    requires head != "" && head[|head| - 1] != '*' && NoEnd(head)
    ensures NoEnd(head + text + " ") <==> NoEnd(text)
  {
    NoEndJoin(head, text);
    NoEndJoin(head + text, " ");
  }

  lemma MessageHeads(column: string, negate: bool)
    ensures NoEnd(" ERROR: InSubquery" + " build failed for column " + GoQuoted(column) + ": ") <==> NoEnd(column)
    ensures NoEnd(" ERROR: " + (if negate then "NOT EXISTS" else "EXISTS") + " build failed: ")
  {
    var head := " ERROR: InSubquery" + " build failed for column ";
    QuotedEnds(column);
    NoEndJoin(head, GoQuoted(column));
    NoEndJoin(head + GoQuoted(column), ": ");
  }

  lemma MessageEnds(n: Node)
    requires (n.InSubquery? || n.Exists?) && SelectError(n.subquery).Some?
    ensures NoEnd(Message(n)) <==> (n.InSubquery? ==> NoEnd(n.column)) && NoEnd(SelectError(n.subquery).value)
  {
    var err := SelectError(n.subquery).value;
    if n.InSubquery? {
      var head := " ERROR: InSubquery" + " build failed for column " + GoQuoted(n.column) + ": ";
      MessageHeads(n.column, n.negate);
      NoEndJoin(head, err);
      NoEndJoin(head + err, " ");
    } else {
      MessageHeads("", n.negate);
      NoEndWithin(" ERROR: " + (if n.negate then "NOT EXISTS" else "EXISTS") + " build failed: ", err);
    }
  }

  lemma QuotedEnds(s: string)
    ensures NoEnd(GoQuoted(s)) <==> NoEnd(s)
  {
    EscapedEnds(s);
    NoEndJoin("\"", GoEscaped(s));
    NoEndJoin("\"" + GoEscaped(s), "\"");
  }

  /** A nested SELECT that does not build leaves a condition that is false, IN
      and EXISTS and their negations alike, and takes no argument: exactly when
      neither the column nor the error holds what ends a comment. */
  lemma FailedSubqueryIsFalse(d: Dialect, n: Node, p: nat)
    requires p >= 1 && (n.InSubquery? || n.Exists?) && SelectError(n.subquery).Some?
    ensures Render(d, n, p).args == [] && Render(d, n, p).next == p
    ensures BehindComment(Render(d, n, p).sql) == Some(" 1=0") <==>
            (n.InSubquery? ==> NoEnd(n.column)) && NoEnd(SelectError(n.subquery).value)
  {
    FailedText(d, n, p);
    MessageEnds(n);
    CommentIsSkipped(Message(n), " 1=0");
    var s := Message(n) + ("*/" + " 1=0");
    assert ("/*" + s)[2..] == s;
  }
}
