/** Common table expressions (query/cte.go): every WITH query and the main
    query is built on its own and renumbered behind the ones before it. */
module CteBuilders {
  import opened Options
  import opened SqlText
  import opened Renumbering
  import opened QueryTree
  import opened QueryMeaning
  import opened QueryNumbering
  import opened SelectBuilders

  datatype Cte = Cte(name: string, columns: seq<string>, query: Select, recursive: bool)

  function CteOpen(d: Dialect, c: Cte): string {
    Quote(d, c.name) + (if |c.columns| > 0 then " (" + Join(QuoteAll(d, c.columns), ", ") + ")" else "") + " AS ("
  }

  function WithKeyword(ctes: seq<Cte>): string {
    if exists i :: 0 <= i < |ctes| && ctes[i].recursive then "WITH RECURSIVE " else "WITH "
  }

  /** The first error among the WITH queries. */
  function CteError(ctes: seq<Cte>): Option<string> {
    if ctes == [] then None
    else if SelectError(ctes[0].query).Some? then SelectError(ctes[0].query)
    else CteError(ctes[1..])
  }

  function Renumbered(d: Dialect, b: Built, p: nat): Rendered
    requires b.Built? && p >= 1
  {
    Rendered(Renumber(d, b.sql, |b.args|, p), b.args, p + |b.args|)
  }

  /** One WITH query, numbered from p. */
  function RenderCte(d: Dialect, c: Cte, p: nat): (r: Rendered)
    requires p >= 1 && SelectError(c.query).None?
    ensures r.next >= 1
  {
    Wrap(CteOpen(d, c), Renumbered(d, Build(d, c.query), p), ")")
  }

  function RenderCtes(d: Dialect, ctes: seq<Cte>, p: nat): (l: Pieces)
    requires p >= 1 && CteError(ctes).None?
    ensures l.next >= 1
    decreases ctes
  {
    if ctes == [] then NoPieces(p)
    else
      var r := RenderCte(d, ctes[0], p);
      Append(One(r), RenderCtes(d, ctes[1..], r.next))
  }

  function WithClause(d: Dialect, ctes: seq<Cte>): (r: Rendered)
    requires CteError(ctes).None?
    ensures r.next >= 1
  {
    Wrap(WithKeyword(ctes), Joined(RenderCtes(d, ctes, 1), ", "), "")
  }

  function BuildWith(d: Dialect, ctes: seq<Cte>, main: Select): Built {
    if CteError(ctes).Some? then BuildError(CteError(ctes).value)
    else if SelectError(main).Some? then BuildError(SelectError(main).value)
    else
      var w := WithClause(d, ctes);
      var m := Renumbered(d, Build(d, main), w.next);
      Built(w.sql + " " + m.sql, w.args + m.args)
  }

  class CTEBuilder {
    var ctes: seq<Cte>
    const builder: SelectBuilder

    /** WithCTE and WithRecursiveCTE: one WITH query and an empty main SELECT. */
    constructor (d: Dialect, name: string, columns: seq<string>, query: Select, recursive: bool)
      ensures ctes == [Cte(name, columns, query, recursive)] && fresh(builder) && builder.dialect == d
      ensures builder.View() == Select(false, [], [], "", "", [], [], [], [], [], [], [], 0, 0, None)
    {
      ctes := [Cte(name, columns, query, recursive)];
      builder := new SelectBuilder(d, []);
    }

    method AndCTE(name: string, columns: seq<string>, query: Select)
      modifies this
      ensures ctes == old(ctes) + [Cte(name, columns, query, false)]
    {
      ctes := ctes + [Cte(name, columns, query, false)];
    }

    /** The loop over the WITH queries. */
    method BuildCtes(d: Dialect)
      returns (cteParts: seq<string>, allArgs: seq<Value>, currentParam: nat, hasRecursive: bool, err: Option<string>)
      ensures err == CteError(ctes)
      ensures err.None? ==>
        && Pieces(cteParts, allArgs, currentParam) == RenderCtes(d, ctes, 1)
        && (hasRecursive <==> exists i :: 0 <= i < |ctes| && ctes[i].recursive)
    {
      allArgs, currentParam, cteParts, hasRecursive, err := [], 1, [], false, None;
      var i := 0;
      while i < |ctes|
        invariant 0 <= i <= |ctes| && err.None?
        invariant hasRecursive <==> exists j :: 0 <= j < i && ctes[j].recursive
        invariant CtesUnderWay(d, ctes, i, Pieces(cteParts, allArgs, currentParam))
      {
        var cte := ctes[i];
        assert ctes[i..][0] == cte && ctes[i..][1..] == ctes[i + 1..];
        hasRecursive := hasRecursive || cte.recursive;
        if SelectError(cte.query).Some? {
          err := SelectError(cte.query);
          return;
        }
        AppendCte(Pieces(cteParts, allArgs, currentParam), d, ctes, i);
        var r := CteToSQL(d, cte, currentParam);
        cteParts, allArgs, currentParam := cteParts + [r.sql], allArgs + r.args, r.next;
        i := i + 1;
      }
      assert cteParts + [] == cteParts && allArgs + [] == allArgs;
    }

    method BuildQuery() returns (b: Built)
      ensures b == BuildWith(builder.dialect, ctes, builder.View())
    {
      var d := builder.dialect;
      var cteParts, allArgs, currentParam, hasRecursive, err := BuildCtes(d);
      if err.Some? {
        return BuildError(err.value);
      }
      var withClause := (if hasRecursive then "WITH RECURSIVE " else "WITH ") + Join(cteParts, ", ");
      assert withClause + "" == withClause;
      var mainBuilt := builder.BuildStatement();
      if mainBuilt.BuildError? {
        return mainBuilt;
      }
      var mainSQL := mainBuilt.sql;
      if |mainBuilt.args| > 0 {
        mainSQL := RenumberQueryParameters(d, mainSQL, |mainBuilt.args|, currentParam);
      }
      b := Built(withClause + " " + mainSQL, allArgs + mainBuilt.args);
    }
  }

  method CteToSQL(d: Dialect, cte: Cte, currentParam: nat) returns (r: Rendered)
    requires currentParam >= 1 && SelectError(cte.query).None?
    ensures r == RenderCte(d, cte, currentParam)
  {
    var built := Build(d, cte.query);
    var cteSQL := built.sql;
    if |built.args| > 0 {
      cteSQL := RenumberQueryParameters(d, cteSQL, |built.args|, currentParam);
    }
    r := Rendered(CteOpen(d, cte) + cteSQL + ")", built.args, currentParam + |built.args|);
  }

  /** The first i WITH queries are rendered. */
  ghost predicate CtesUnderWay(d: Dialect, ctes: seq<Cte>, i: nat, done: Pieces) {
    && i <= |ctes| && done.next >= 1 && CteError(ctes[i..]) == CteError(ctes)
    && (CteError(ctes).None? ==> Append(done, RenderCtes(d, ctes[i..], done.next)) == RenderCtes(d, ctes, 1))
  }

  lemma AppendCte(done: Pieces, d: Dialect, ctes: seq<Cte>, i: nat)
    requires i < |ctes| && SelectError(ctes[i].query).None? && CtesUnderWay(d, ctes, i, done)
    ensures
      var r := RenderCte(d, ctes[i], done.next);
      CtesUnderWay(d, ctes, i + 1, Pieces(done.parts + [r.sql], done.args + r.args, r.next))
  {
    assert ctes[i..][0] == ctes[i] && ctes[i..][1..] == ctes[i + 1..];
    if CteError(ctes).None? { AppendFirstCte(done, d, ctes[i..]); }
  }

  lemma AppendFirstCte(done: Pieces, d: Dialect, ctes: seq<Cte>)
    requires ctes != [] && CteError(ctes).None? && done.next >= 1
    ensures
      var r := RenderCte(d, ctes[0], done.next);
      Append(done, RenderCtes(d, ctes, done.next)) ==
      Append(Pieces(done.parts + [r.sql], done.args + r.args, r.next), RenderCtes(d, ctes[1..], r.next))
  {
    var r := RenderCte(d, ctes[0], done.next);
    var rest := RenderCtes(d, ctes[1..], r.next);
    assert RenderCtes(d, ctes, done.next) == Append(One(r), rest);
    assert done.parts + ([r.sql] + rest.parts) == done.parts + [r.sql] + rest.parts;
    assert done.args + (r.args + rest.args) == done.args + r.args + rest.args;
  }

  // --------------------------------------------------- numbering

  predicate TidyCte(c: Cte) {
    Plain(c.name) && AllPlain(c.columns) && TidySelect(c.query)
  }

  predicate TidyCtes(ctes: seq<Cte>) {
    ctes == [] || (TidyCte(ctes[0]) && TidyCtes(ctes[1..]))
  }

  function InlineCte(d: Dialect, c: Cte): Inline {
    WrapInline(CteOpen(d, c), InlineSelect(d, c.query), ")")
  }

  function InlineCtes(d: Dialect, ctes: seq<Cte>): (ts: seq<Inline>)
    ensures |ts| == |ctes|
  {
    if ctes == [] then [] else [InlineCte(d, ctes[0])] + InlineCtes(d, ctes[1..])
  }

  function InlineWithClause(d: Dialect, ctes: seq<Cte>): Inline {
    WrapInline(WithKeyword(ctes), JoinInline(InlineCtes(d, ctes), ", "), "")
  }

  /** The whole statement with its values in place. */
  function InlineWith(d: Dialect, ctes: seq<Cte>, main: Select): Inline {
    InlineWithClause(d, ctes) + Lit(" ") + InlineSelect(d, main)
  }

  lemma CteOpenIsPlain(d: Dialect, c: Cte)
    requires Plain(c.name) && AllPlain(c.columns)
    ensures Plain(CteOpen(d, c))
  {
    QuoteIsPlain(d, c.name);
    if |c.columns| > 0 {
      forall i | 0 <= i < |c.columns| ensures Plain(QuoteAll(d, c.columns)[i]) { QuoteIsPlain(d, c.columns[i]); }
      JoinIsPlain(QuoteAll(d, c.columns), ", ");
      PlainConcat(" (", Join(QuoteAll(d, c.columns), ", "));
      PlainConcat(" (" + Join(QuoteAll(d, c.columns), ", "), ")");
      PlainConcat(Quote(d, c.name), " (" + Join(QuoteAll(d, c.columns), ", ") + ")");
      PlainConcat(Quote(d, c.name) + (" (" + Join(QuoteAll(d, c.columns), ", ") + ")"), " AS (");
    } else {
      assert Quote(d, c.name) + "" == Quote(d, c.name);
      PlainConcat(Quote(d, c.name), " AS (");
    }
  }

  lemma RenumberedSelectPrints(d: Dialect, s: Select, p: nat)
    requires p >= 1 && TidySelect(s) && SelectError(s).None?
    ensures Build(d, s).Built? && Prints(d, Renumbered(d, Build(d, s), p), InlineSelect(d, s), p)
  {
    SelectPrints(d, s);
    RenumberedPrints(d, InlineSelect(d, s), p);
  }

  lemma CtePrints(d: Dialect, c: Cte, p: nat)
    requires p >= 1 && TidyCte(c) && SelectError(c.query).None?
    ensures Prints(d, RenderCte(d, c, p), InlineCte(d, c), p)
  {
    RenumberedSelectPrints(d, c.query, p);
    CteOpenIsPlain(d, c);
    WrapPrints(d, CteOpen(d, c), Renumbered(d, Build(d, c.query), p), InlineSelect(d, c.query), ")", p);
  }

  lemma {:induction false} CtesPrint(d: Dialect, ctes: seq<Cte>, p: nat)
    requires p >= 1 && TidyCtes(ctes) && CteError(ctes).None?
    ensures PrintsAll(d, RenderCtes(d, ctes, p), InlineCtes(d, ctes), p)
    decreases ctes
  {
    if ctes != [] {
      var r, t := RenderCte(d, ctes[0], p), InlineCte(d, ctes[0]);
      CtePrints(d, ctes[0], p);
      OnePrints(d, r, t, p);
      CtesPrint(d, ctes[1..], r.next);
      AppendPrints(d, One(r), [t], RenderCtes(d, ctes[1..], r.next), InlineCtes(d, ctes[1..]), p);
    }
  }

  lemma WithClausePrints(d: Dialect, ctes: seq<Cte>)
    requires TidyCtes(ctes) && CteError(ctes).None?
    ensures Prints(d, WithClause(d, ctes), InlineWithClause(d, ctes), 1)
  {
    CtesPrint(d, ctes, 1);
    WithKeywordIsPlain(ctes);
    ListPrints(d, WithKeyword(ctes), RenderCtes(d, ctes, 1), InlineCtes(d, ctes));
  }

  lemma ListPrints(d: Dialect, keyword: string, l: Pieces, ts: seq<Inline>)
    requires PrintsAll(d, l, ts, 1) && Plain(keyword)
    ensures Prints(d, Wrap(keyword, Joined(l, ", "), ""), WrapInline(keyword, JoinInline(ts, ", "), ""), 1)
  {
    WrapJoinPrints(d, keyword, l, ts, ", ", "", 1);
  }

  lemma WithKeywordIsPlain(ctes: seq<Cte>)
    ensures Plain(WithKeyword(ctes))
  {}

  lemma WithPrints(d: Dialect, ctes: seq<Cte>, main: Select)
    requires TidyCtes(ctes) && TidySelect(main) && CteError(ctes).None? && SelectError(main).None?
    ensures BuildWith(d, ctes, main).Built?
    ensures
      var b := BuildWith(d, ctes, main);
      Prints(d, Rendered(b.sql, b.args, 1 + |b.args|), InlineWith(d, ctes, main), 1)
  {
    WithClausePrints(d, ctes);
    MainPrints(d, WithClause(d, ctes), InlineWithClause(d, ctes), main);
  }

  /** The main SELECT behind a printed WITH clause. */
  lemma MainPrints(d: Dialect, w: Rendered, tw: Inline, main: Select)
    requires Prints(d, w, tw, 1) && TidySelect(main) && SelectError(main).None?
    ensures
      var m := Renumbered(d, Build(d, main), w.next);
      Prints(d, Rendered(w.sql + " " + m.sql, w.args + m.args, 1 + |w.args + m.args|), tw + Lit(" ") + InlineSelect(d, main), 1)
  {
    RenumberedSelectPrints(d, main, w.next);
    PairPrints(d, w, tw, " ", Renumbered(d, Build(d, main), w.next), InlineSelect(d, main), 1);
  }

  /** Every placeholder of a WITH statement, across all its queries, reads the
      value it was given: the numbers are 1..n in order. */
  lemma BuiltWithReadsAsInline(d: Dialect, ctes: seq<Cte>, main: Select)
    requires TidyCtes(ctes) && TidySelect(main)
    ensures
      var b := BuildWith(d, ctes, main);
      && (b.BuildError? <==> CteError(ctes).Some? || SelectError(main).Some?)
      && (b.Built? ==>
            && Bind(d, b.sql, b.args, 1) == Some(InlineWith(d, ctes, main))
            && (Numbered(d) ==> PlaceholderNumbers(b.sql) == Consecutive(1, |b.args|)))
  {
    BuiltSelectReadsAsInline(d, main);
    if CteError(ctes).None? && SelectError(main).None? {
      WithPrints(d, ctes, main);
      FillReadsBack(d, InlineWith(d, ctes, main), 1);
      if Numbered(d) { FillNumbers(InlineWith(d, ctes, main), 1); }
    }
  }
}
