/** What expressions are read as, kind by kind (query/case.go:58-101,
    query/window.go:64-101, query/expression.go): the words around an operand and
    the order of the operands, in tokens of the operands alone. */
module ExpressionReading {
  import opened Options
  import opened SqlText
  import opened QueryTree
  import opened QueryMeaning
  import opened SqlReading
  import opened ClauseReading
  import opened ConditionMeaning
  import opened StatementReading
  import QueryLoops

  // --------------------------------------------------- CASE

  lemma FlatInThree(head: seq<Token>, middle: seq<seq<Token>>, tail: seq<seq<Token>>, end: seq<Token>)
    ensures Flat([head] + middle + tail + [end]) == head + Flat(middle) + Flat(tail) + end
  {
    FlatConcat([head] + middle + tail, [end]);
    FlatConcat([head] + middle, tail);
    FlatConcat([head], middle);
    FlatOfOne(head);
    FlatOfOne(end);
  }

  /** CASE, the operand if there is one, the pairs in order, ELSE and its value if
      there is one, END. */
  lemma CaseIsRead(d: Dialect, operand: Option<Node>, whens: seq<Node>, otherwise: Option<Node>)
    requires IsItemNode(d, Case(operand, whens, otherwise))
    ensures TokensOf(d, Case(operand, whens, otherwise)) ==
            [Word("CASE")] + (if operand.Some? then TokensOf(d, operand.value) else []) + Flat(AllTokens(d, whens))
            + (if otherwise.Some? then [Word("ELSE")] + TokensOf(d, otherwise.value) else []) + [Word("END")]
  {
    CasePartsRead(d, Case(operand, whens, otherwise));
    CaseNodeReads(d, Case(operand, whens, otherwise));
    FlatInThree(CaseHeadTokens(d, operand), AllTokens(d, whens), CaseTailTokens(d, otherwise), [Word("END")]);
    if otherwise.Some? { FlatOfOne([Word("ELSE")] + TokensOf(d, otherwise.value)); }
  }

  lemma WhenIsRead(d: Dialect, test: Node, result: Node)
    requires IsItemNode(d, When(test, result))
    ensures TokensOf(d, When(test, result)) == [Word("WHEN")] + (TokensOf(d, test) + [Word("THEN")] + TokensOf(d, result))
  {
    NodeReads(d, test);
    NodeReads(d, result);
    WhenNodeReads(d, test, result);
  }

  // --------------------------------------------------- names and calls

  lemma AliasIsRead(d: Dialect, expr: Node, alias: string)
    requires IsItemNode(d, Alias(expr, alias))
    ensures TokensOf(d, Alias(expr, alias)) == TokensOf(d, expr) + [Word("AS")] + [Name(alias)]
  {
    NodeReads(d, expr);
    AliasNodeReads(d, expr, alias);
  }

  lemma OperandsRead(d: Dialect, operands: seq<Node>)
    requires AreItemNodes(d, operands)
    ensures Reads(QuoteChar(d), JoinInline(InlineAll(d, operands), ", "), Listed(AllTokens(d, operands)))
  {
    ExprsRow(d, operands);
    CommasRead(d, InlineAll(d, operands), AllTokens(d, operands));
  }

  lemma TextRead(d: Dialect, n: Node, t: Inline, ts: seq<Token>)
    requires InlineOf(d, n) == t && Reads(QuoteChar(d), t, ts)
    ensures TokensOf(d, n) == ts
  {}

  /** A function: its name, and its operands in order. */
  lemma CallIsRead(d: Dialect, w: string, operands: seq<Node>)
    requires PlainWord(w) && AreItemNodes(d, operands)
    ensures TokensOf(d, Call(w + "(", operands)) == [Word(w)] + [LParen] + Listed(AllTokens(d, operands)) + [RParen]
  {
    var list := JoinInline(InlineAll(d, operands), ", ");
    OperandsRead(d, operands);
    ReadsWord(d, w);
    EnclosedReads(d, w, [Word(w)], list, Listed(AllTokens(d, operands)));
    CallInline(d, w + "(", operands);
    TextRead(d, Call(w + "(", operands), WrapInline(w + "(", list, ")"), [Word(w)] + [LParen] + Listed(AllTokens(d, operands)) + [RParen]);
  }

  /** The same with DISTINCT before the operands. */
  lemma DistinctCallIsRead(d: Dialect, w: string, operands: seq<Node>)
    requires PlainWord(w) && AreItemNodes(d, operands)
    ensures TokensOf(d, Call(w + "(" + "DISTINCT ", operands)) ==
            [Word(w)] + [LParen] + ([Word("DISTINCT")] + Listed(AllTokens(d, operands))) + [RParen]
  {
    var list, ts := JoinInline(InlineAll(d, operands), ", "), Listed(AllTokens(d, operands));
    OperandsRead(d, operands);
    assert "DISTINCT" + " " == "DISTINCT ";
    WordThen(d, "DISTINCT", list, ts);
    ReadsWord(d, w);
    EnclosedReads(d, w, [Word(w)], Lit("DISTINCT ") + list, [Word("DISTINCT")] + ts);
    CallText(w, "DISTINCT ", list);
    CallInline(d, w + "(" + "DISTINCT ", operands);
    TextRead(d, Call(w + "(" + "DISTINCT ", operands), WrapInline(w + "(", Lit("DISTINCT ") + list, ")"),
             [Word(w)] + [LParen] + ([Word("DISTINCT")] + ts) + [RParen]);
  }

  // --------------------------------------------------- windows

  lemma OverIsRead(d: Dialect, call: Node, window: Node)
    requires IsItemNode(d, Over(call, window))
    ensures TokensOf(d, Over(call, window)) == TokensOf(d, call) + ([Word("OVER")] + [LParen] + TokensOf(d, window) + [RParen])
  {
    NodeReads(d, call);
    OverNodeReads(d, call, window);
  }

  lemma FrameReads(d: Dialect, frame: string)
    requires Lex(QuoteChar(d), Lit(frame)).Some?
    ensures Aligned(d, LitAll(if frame == "" then [] else [frame]), if frame == "" then [] else [TextTokens(d, Lit(frame))])
  {
    if frame != "" { assert LitAll([frame]) == [Lit(frame)]; }
  }

  lemma PartsRead(d: Dialect, partitionBy: seq<Node>, orderBy: seq<Node>, frame: string)
    requires AreItemNodes(d, partitionBy) && (forall i :: 0 <= i < |orderBy| ==> IsOrderNode(d, orderBy[i]))
    requires Lex(QuoteChar(d), Lit(frame)).Some?
    ensures Aligned(d, SectionInline("PARTITION BY ", InlineAll(d, partitionBy), ", ") + SectionInline("ORDER BY ", InlineAll(d, orderBy), ", ")
                       + LitAll(if frame == "" then [] else [frame]),
                    Opt("PARTITION", By(AllTokens(d, partitionBy))) + Opt("ORDER", By(Directed(NodeOrder(d, orderBy))))
                    + (if frame == "" then [] else [TextTokens(d, Lit(frame))]))
  {
    assert "PARTITION" + " " + "BY " == "PARTITION BY " && "ORDER" + " " + "BY " == "ORDER BY ";
    var a, x := SectionInline("PARTITION BY ", InlineAll(d, partitionBy), ", "), Opt("PARTITION", By(AllTokens(d, partitionBy)));
    var b, y := SectionInline("ORDER BY ", InlineAll(d, orderBy), ", "), Opt("ORDER", By(Directed(NodeOrder(d, orderBy))));
    ExprsRow(d, partitionBy);
    BySection(d, "PARTITION", InlineAll(d, partitionBy), AllTokens(d, partitionBy));
    NodeOrderReads(d, orderBy);
    BySection(d, "ORDER", InlineAll(d, orderBy), Directed(NodeOrder(d, orderBy)));
    AlignedJoin(d, a, x, b, y);
    FrameReads(d, frame);
    AlignedJoin(d, a + b, x + y, LitAll(if frame == "" then [] else [frame]), if frame == "" then [] else [TextTokens(d, Lit(frame))]);
  }

  lemma WindowInline(d: Dialect, partitionBy: seq<Node>, orderBy: seq<Node>, frame: string)
    ensures InlineOf(d, Window(partitionBy, orderBy, frame)) ==
            JoinInline(SectionInline("PARTITION BY ", InlineAll(d, partitionBy), ", ") + SectionInline("ORDER BY ", InlineAll(d, orderBy), ", ")
                       + LitAll(if frame == "" then [] else [frame]), " ")
  {}

  /** PARTITION BY its expressions, ORDER BY its expressions with their directions,
      and the frame, each only if it says something. */
  lemma WindowIsRead(d: Dialect, partitionBy: seq<Node>, orderBy: seq<Node>, frame: string)
    requires AreItemNodes(d, partitionBy) && (forall i :: 0 <= i < |orderBy| ==> IsOrderNode(d, orderBy[i]))
    requires Lex(QuoteChar(d), Lit(frame)).Some?
    ensures TokensOf(d, Window(partitionBy, orderBy, frame)) ==
            Flat(Opt("PARTITION", By(AllTokens(d, partitionBy))) + Opt("ORDER", By(Directed(NodeOrder(d, orderBy))))
                 + (if frame == "" then [] else [TextTokens(d, Lit(frame))]))
  {
    var texts := SectionInline("PARTITION BY ", InlineAll(d, partitionBy), ", ") + SectionInline("ORDER BY ", InlineAll(d, orderBy), ", ")
                 + LitAll(if frame == "" then [] else [frame]);
    var tokens := Opt("PARTITION", By(AllTokens(d, partitionBy))) + Opt("ORDER", By(Directed(NodeOrder(d, orderBy))))
                  + (if frame == "" then [] else [TextTokens(d, Lit(frame))]);
    PartsRead(d, partitionBy, orderBy, frame);
    BlanksRead(d, texts, tokens);
    WindowInline(d, partitionBy, orderBy, frame);
    TextRead(d, Window(partitionBy, orderBy, frame), JoinInline(texts, " "), Flat(tokens));
  }

  /** The frame the builder composes: its kind, and its bounds in order. */
  lemma FrameIsRead(d: Dialect, kind: string, from: string, to: string)
    requires PlainWord(kind) && Lex(QuoteChar(d), Lit(from)).Some? && Lex(QuoteChar(d), Lit(to)).Some?
    ensures Reads(QuoteChar(d), Lit(QueryLoops.FrameText(kind, from, to)),
                  [Word(kind)] + [Word("BETWEEN")] + (TextTokens(d, Lit(from)) + [Word("AND")] + TextTokens(d, Lit(to))))
  {
    ReadsWord(d, kind);
    ReadsKeyword(d, Lit(from), TextTokens(d, Lit(from)), "AND", Lit(to), TextTokens(d, Lit(to)));
    ReadsKeyword(d, Lit(kind), [Word(kind)], "BETWEEN", Lit(from) + Lit(" " + "AND" + " ") + Lit(to),
                 TextTokens(d, Lit(from)) + [Word("AND")] + TextTokens(d, Lit(to)));
    FrameInPieces(kind, from, to);
  }

  lemma FrameInPieces(kind: string, from: string, to: string)
    requires kind != ""
    ensures Lit(QueryLoops.FrameText(kind, from, to)) == Lit(kind) + Lit(" " + "BETWEEN" + " ") + (Lit(from) + Lit(" " + "AND" + " ") + Lit(to))
  {
    assert " " + "BETWEEN" + " " == " BETWEEN " && " " + "AND" + " " == " AND ";
    LitConcat(kind, " BETWEEN ");
    LitConcat(kind + " BETWEEN ", from);
    LitConcat(kind + " BETWEEN " + from, " AND ");
    LitConcat(kind + " BETWEEN " + from + " AND ", to);
  }
}
