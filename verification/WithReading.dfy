/** A built WITH statement, read back (query/cte.go:151-206): which queries it
    names, in which order, whether it may recurse, and what each of them and the
    main SELECT ask for. */
module WithReading {
  import opened Options
  import opened SqlText
  import opened QueryTree
  import opened QueryMeaning
  import opened SqlReading
  import opened ClauseReading
  import opened StatementReading
  import opened ConditionMeaning
  import opened CteBuilders

  // --------------------------------------------------- the reader

  datatype NamedQuery = NamedQuery(name: string, columns: seq<string>, query: Query)
  datatype WithQuery = WithQuery(recursive: bool, queries: seq<NamedQuery>, main: Query)

  predicate IsSelectWord(t: Token) {
    t == Word("SELECT")
  }

  predicate IsAs(t: Token) {
    t == Word("AS")
  }

  predicate InParens(ts: seq<Token>) {
    |ts| >= 2 && ts[0] == LParen && ts[|ts| - 1] == RParen
  }

  function ReadNames(items: seq<seq<Token>>): Option<seq<string>> {
    if items == [] then Some([])
    else if |items[0]| == 1 && items[0][0].Name? && ReadNames(items[1..]).Some? then Some([items[0][0].name] + ReadNames(items[1..]).value)
    else None
  }

  /** A name, its columns in parentheses if there are any, AS, a SELECT in
      parentheses. */
  function ReadNamed(item: seq<Token>): Option<NamedQuery> {
    var groups := Split(item, 0, IsAs);
    if |groups| != 2 || groups[1] == [] then None
    else
      var declared, body := groups[0], groups[1][1..];
      if declared == [] || !declared[0].Name? || !InParens(body) || (|declared| > 1 && !InParens(declared[1..])) then None
      else
        var columns := if |declared| == 1 then Some([]) else ReadNames(Items(declared[2..|declared| - 1]));
        var query := ReadSelect(body[1..|body| - 1]);
        if columns.Some? && query.Some? then Some(NamedQuery(declared[0].name, columns.value, query.value)) else None
  }

  function ReadAllNamed(items: seq<seq<Token>>): Option<seq<NamedQuery>> {
    if items == [] then Some([])
    else if ReadNamed(items[0]).Some? && ReadAllNamed(items[1..]).Some? then Some([ReadNamed(items[0]).value] + ReadAllNamed(items[1..]).value)
    else None
  }

  /** The named queries stand before the first SELECT outside parentheses. */
  function ReadWith(ts: seq<Token>): Option<WithQuery> {
    var head := Split(ts, 0, IsSelectWord)[0];
    if head == [] || head[0] != Word("WITH") || |head| > |ts| then None
    else
      var recursive := |head| > 1 && head[1] == Word("RECURSIVE");
      var queries, main := ReadAllNamed(Items(head[if recursive then 2 else 1..])), ReadSelect(ts[|head|..]);
      if queries.Some? && main.Some? then Some(WithQuery(recursive, queries.value, main.value)) else None
  }

  // --------------------------------------------------- what the builder holds

  predicate AnyRecursive(ctes: seq<Cte>) {
    exists i :: 0 <= i < |ctes| && ctes[i].recursive
  }

  function NamedOf(d: Dialect, c: Cte): NamedQuery {
    NamedQuery(c.name, c.columns, QueryOf(d, c.query))
  }

  function AllNamedOf(d: Dialect, ctes: seq<Cte>): seq<NamedQuery> {
    seq(|ctes|, i requires 0 <= i < |ctes| => NamedOf(d, ctes[i]))
  }

  function WithOf(d: Dialect, ctes: seq<Cte>, main: Select): WithQuery {
    WithQuery(AnyRecursive(ctes), AllNamedOf(d, ctes), QueryOf(d, main))
  }

  // --------------------------------------------------- below parentheses nothing counts

  predicate Never(t: Token) {
    false
  }

  predicate Free(ts: seq<Token>, at: Token -> bool) {
    Level(ts, 0, at) == Some(0)
  }

  lemma FreeConcat(a: seq<Token>, b: seq<Token>, at: Token -> bool)
    requires Free(a, at) && Free(b, at)
    ensures Free(a + b, at)
  {
    LevelConcat(a, b, 0, at);
  }

  lemma FreeOfOne(t: Token, at: Token -> bool)
    requires t != LParen && t != RParen && !at(t)
    ensures Free([t], at)
  {
    assert [t][1..] == [];
  }

  lemma EnclosedIsFree(inside: seq<Token>, at: Token -> bool)
    requires Free(inside, Never) && !at(LParen) && !at(RParen)
    ensures Free([LParen] + inside + [RParen], at)
  {
    assert [LParen][1..] == [] && [RParen][1..] == [];
    LevelDeeper(inside, 0, Never, at);
    LevelConcat([LParen], inside, 0, at);
    LevelConcat([LParen] + inside, [RParen], 0, at);
  }

  lemma {:induction false} ChunksAreFree(chunks: seq<seq<Token>>)
    requires AllChunks(chunks)
    ensures Free(Flat(chunks), Never)
  {
    if chunks != [] {
      var c := chunks[0];
      assert Chunk(c, OpensClause);
      LevelWeaker(c[1..], 0, OpensClause, Never);
      FreeOfOne(c[0], Never);
      FreeConcat([c[0]], c[1..], Never);
      assert [c[0]] + c[1..] == c;
      ChunksAreFree(chunks[1..]);
      FreeConcat(c, Flat(chunks[1..]), Never);
    }
  }

  lemma SpelledIsFree(p: Query)
    requires Readable(p)
    ensures Free(HeadOf(p) + Flat(Spelled(p)), Never)
  {
    HeadIsSolid(p);
    LevelWeaker(HeadOf(p), 0, OpensClause, Never);
    SpelledAreChunks(p);
    ChunksAreFree(Spelled(p));
    FreeConcat(HeadOf(p), Flat(Spelled(p)), Never);
  }

  // --------------------------------------------------- tokens of a named query

  function NameItems(names: seq<string>): seq<seq<Token>> {
    seq(|names|, i requires 0 <= i < |names| => [Name(names[i])])
  }

  function Declared(name: string, columns: seq<string>): seq<Token> {
    [Name(name)] + if columns == [] then [] else [LParen] + Listed(NameItems(columns)) + [RParen]
  }

  function NamedTokens(name: string, columns: seq<string>, body: seq<Token>): seq<Token> {
    Declared(name, columns) + ([Word("AS")] + ([LParen] + body + [RParen]))
  }

  lemma {:induction false} NamesAreFree(names: seq<string>)
    ensures Free(Listed(NameItems(names)), Never)
  {
    if names != [] {
      FreeOfOne(Name(names[0]), Never);
      if |names| > 1 {
        assert NameItems(names)[1..] == NameItems(names[1..]);
        NamesAreFree(names[1..]);
        FreeOfOne(Comma, Never);
        FreeConcat([Name(names[0])], [Comma], Never);
        FreeConcat([Name(names[0])] + [Comma], Listed(NameItems(names[1..])), Never);
      }
    }
  }

  lemma DeclaredIsFree(name: string, columns: seq<string>, at: Token -> bool)
    requires !at(LParen) && !at(RParen) && !at(Name(name))
    ensures Free(Declared(name, columns), at)
  {
    FreeOfOne(Name(name), at);
    if columns == [] {
      assert Declared(name, columns) == [Name(name)];
    } else {
      NamesAreFree(columns);
      EnclosedIsFree(Listed(NameItems(columns)), at);
      FreeConcat([Name(name)], [LParen] + Listed(NameItems(columns)) + [RParen], at);
    }
  }

  lemma NamedIsFree(name: string, columns: seq<string>, body: seq<Token>, at: Token -> bool)
    requires Free(body, Never) && !at(LParen) && !at(RParen) && !at(Name(name)) && !at(Word("AS"))
    ensures Free(NamedTokens(name, columns, body), at)
  {
    DeclaredIsFree(name, columns, at);
    FreeOfOne(Word("AS"), at);
    EnclosedIsFree(body, at);
    FreeConcat([Word("AS")], [LParen] + body + [RParen], at);
    FreeConcat(Declared(name, columns), [Word("AS")] + ([LParen] + body + [RParen]), at);
  }

  // --------------------------------------------------- reading them back

  lemma {:induction false} NamesReadBack(names: seq<string>)
    ensures ReadNames(NameItems(names)) == Some(names)
  {
    if names != [] {
      assert NameItems(names)[1..] == NameItems(names[1..]);
      NamesReadBack(names[1..]);
      assert [names[0]] + names[1..] == names;
    }
  }

  lemma ColumnsReadBack(columns: seq<string>)
    requires columns != []
    ensures ReadNames(Items(Listed(NameItems(columns)))) == Some(columns)
  {
    var items := NameItems(columns);
    forall i | 0 <= i < |items| ensures Level(items[i], 0, IsComma) == Some(0) { FreeOfOne(Name(columns[i]), IsComma); }
    ItemsOfListed(items);
    NamesReadBack(columns);
  }

  lemma NamedInGroups(name: string, columns: seq<string>, body: seq<Token>)
    requires Free(body, Never)
    ensures Split(NamedTokens(name, columns, body), 0, IsAs) == [Declared(name, columns)] + [[Word("AS")] + ([LParen] + body + [RParen])]
  {
    var chunk := [Word("AS")] + ([LParen] + body + [RParen]);
    DeclaredIsFree(name, columns, IsAs);
    EnclosedIsFree(body, IsAs);
    assert chunk[1..] == [LParen] + body + [RParen];
    FlatOfOne(chunk);
    SplitAll(Declared(name, columns), [chunk], IsAs);
  }

  lemma DeclaredReadsBack(name: string, columns: seq<string>)
    ensures
      var declared := Declared(name, columns);
      && declared[0] == Name(name) && (|declared| == 1 <==> columns == [])
      && (columns != [] ==> InParens(declared[1..]) && ReadNames(Items(declared[2..|declared| - 1])) == Some(columns))
  {
    var declared := Declared(name, columns);
    if columns == [] {
      assert declared == [Name(name)];
    } else {
      assert declared[2..|declared| - 1] == Listed(NameItems(columns));
      assert declared[1..] == [LParen] + Listed(NameItems(columns)) + [RParen];
      ColumnsReadBack(columns);
    }
  }

  lemma NamedReadsBack(name: string, columns: seq<string>, body: seq<Token>)
    requires Free(body, Never) && ReadSelect(body).Some?
    ensures ReadNamed(NamedTokens(name, columns, body)) == Some(NamedQuery(name, columns, ReadSelect(body).value))
  {
    var enclosed := [LParen] + body + [RParen];
    NamedInGroups(name, columns, body);
    assert ([Word("AS")] + enclosed)[1..] == enclosed;
    assert enclosed[1..|enclosed| - 1] == body;
    DeclaredReadsBack(name, columns);
  }

  // --------------------------------------------------- texts of named queries

  lemma {:induction false} TextsJoin(parts: seq<string>, sep: string)
    ensures JoinInline(LitAll(parts), sep) == Lit(Join(parts, sep))
  {
    if |parts| > 1 {
      assert LitAll(parts)[1..] == LitAll(parts[1..]);
      TextsJoin(parts[1..], sep);
      LitConcat(parts[0], sep);
      LitConcat(parts[0] + sep, Join(parts[1..], sep));
    }
  }

  lemma ColumnNamesRead(d: Dialect, names: seq<string>)
    ensures Reads(QuoteChar(d), Lit(Join(QuoteAll(d, names), ", ")), Listed(NameItems(names)))
  {
    forall i | 0 <= i < |names| ensures Reads(QuoteChar(d), LitAll(QuoteAll(d, names))[i], NameItems(names)[i]) { LexQuoted(d, names[i]); }
    CommasRead(d, LitAll(QuoteAll(d, names)), NameItems(names));
    TextsJoin(QuoteAll(d, names), ", ");
  }

  function DeclaredText(d: Dialect, c: Cte): string {
    Quote(d, c.name) + if |c.columns| > 0 then " (" + Join(QuoteAll(d, c.columns), ", ") + ")" else ""
  }

  lemma DeclaredReads(d: Dialect, c: Cte)
    ensures Reads(QuoteChar(d), Lit(DeclaredText(d, c)), Declared(c.name, c.columns))
  {
    LexQuoted(d, c.name);
    if |c.columns| > 0 {
      var list := Join(QuoteAll(d, c.columns), ", ");
      ReadsBlank(QuoteChar(d), Quote(d, c.name), [Name(c.name)]);
      ColumnNamesRead(d, c.columns);
      EnclosedReads(d, Quote(d, c.name) + " ", [Name(c.name)], Lit(list), Listed(NameItems(c.columns)));
      EnclosedText(Quote(d, c.name), list);
      assert [Name(c.name)] + [LParen] + Listed(NameItems(c.columns)) + [RParen] == Declared(c.name, c.columns);
    } else {
      assert Quote(d, c.name) + "" == Quote(d, c.name);
      assert Declared(c.name, c.columns) == [Name(c.name)];
    }
  }

  lemma EnclosedText(name: string, list: string)
    ensures WrapInline(name + " " + "(", Lit(list), ")") == Lit(name + (" (" + list + ")"))
  {
    LitConcat(name + " " + "(", list);
    LitConcat(name + " " + "(" + list, ")");
    assert name + " " + "(" + list + ")" == name + (" (" + list + ")");
  }

  lemma DeclaredAsReads(d: Dialect, c: Cte)
    ensures Reads(QuoteChar(d), Lit(DeclaredText(d, c) + " " + "AS" + " "), Declared(c.name, c.columns) + [Word("AS")])
  {
    var q, declared := QuoteChar(d), DeclaredText(d, c);
    DeclaredReads(d, c);
    ReadsWord(d, "AS");
    ReadsSpaced(q, Lit(declared), Declared(c.name, c.columns), Lit("AS"), [Word("AS")]);
    LitConcat(declared, " ");
    LitConcat(declared + " ", "AS");
    ReadsBlank(q, declared + " " + "AS", Declared(c.name, c.columns) + [Word("AS")]);
  }

  /** A named query's text, whatever its SELECT. */
  lemma NamedReads(d: Dialect, c: Cte, t: Inline, body: seq<Token>)
    requires Reads(QuoteChar(d), t, body)
    ensures Reads(QuoteChar(d), WrapInline(CteOpen(d, c), t, ")"), NamedTokens(c.name, c.columns, body))
  {
    DeclaredAsReads(d, c);
    EnclosedReads(d, DeclaredText(d, c) + " " + "AS" + " ", Declared(c.name, c.columns) + [Word("AS")], t, body);
    CteOpenText(d, c);
    NamedInOneRow(Declared(c.name, c.columns), body);
  }

  lemma NamedInOneRow(declared: seq<Token>, body: seq<Token>)
    ensures declared + [Word("AS")] + [LParen] + body + [RParen] == declared + ([Word("AS")] + ([LParen] + body + [RParen]))
  {}

  lemma CteOpenText(d: Dialect, c: Cte)
    ensures CteOpen(d, c) == DeclaredText(d, c) + " " + "AS" + " " + "("
  {}

  // --------------------------------------------------- the whole statement

  function SelectTokens(d: Dialect, s: Select): seq<Token> {
    HeadOf(QueryOf(d, s)) + Flat(Spelled(QueryOf(d, s)))
  }

  /** A SELECT's tokens: read back, closed, and beginning with SELECT. */
  lemma SelectIsRead(d: Dialect, s: Select)
    requires IsReadable(d, s)
    ensures Reads(QuoteChar(d), InlineSelect(d, s), SelectTokens(d, s))
    ensures Free(SelectTokens(d, s), Never) && ReadSelect(SelectTokens(d, s)) == Some(QueryOf(d, s))
    ensures SelectTokens(d, s) != [] && SelectTokens(d, s)[0] == Word("SELECT")
  {
    StatementIsSpelled(d, s, QueryOf(d, s));
    QueryIsReadable(d, s);
    SpelledIsFree(QueryOf(d, s));
    SpelledReadsBack(QueryOf(d, s));
  }

  ghost predicate AreReadable(d: Dialect, ctes: seq<Cte>) {
    forall i :: 0 <= i < |ctes| ==> IsReadable(d, ctes[i].query)
  }

  function CteTokens(d: Dialect, ctes: seq<Cte>): seq<seq<Token>> {
    seq(|ctes|, i requires 0 <= i < |ctes| => NamedTokens(ctes[i].name, ctes[i].columns, SelectTokens(d, ctes[i].query)))
  }

  lemma CteReads(d: Dialect, c: Cte)
    requires IsReadable(d, c.query)
    ensures
      var ts := NamedTokens(c.name, c.columns, SelectTokens(d, c.query));
      && Reads(QuoteChar(d), InlineCte(d, c), ts) && ReadNamed(ts) == Some(NamedOf(d, c))
      && Free(ts, IsSelectWord) && Free(ts, IsComma) && ts != [] && ts[0] == Name(c.name)
  {
    var body := SelectTokens(d, c.query);
    SelectIsRead(d, c.query);
    NamedReads(d, c, InlineSelect(d, c.query), body);
    NamedReadsBack(c.name, c.columns, body);
    NamedIsFree(c.name, c.columns, body, IsSelectWord);
    NamedIsFree(c.name, c.columns, body, IsComma);
  }

  lemma {:induction false} InlineCtesAt(d: Dialect, ctes: seq<Cte>, i: nat)
    requires i < |ctes|
    ensures InlineCtes(d, ctes)[i] == InlineCte(d, ctes[i])
  {
    if i > 0 { InlineCtesAt(d, ctes[1..], i - 1); }
  }

  /** The named queries' texts and tokens, one by one. */
  lemma CtesAlign(d: Dialect, ctes: seq<Cte>)
    requires AreReadable(d, ctes)
    ensures Aligned(d, InlineCtes(d, ctes), CteTokens(d, ctes))
  {
    forall i | 0 <= i < |ctes| ensures Reads(QuoteChar(d), InlineCtes(d, ctes)[i], CteTokens(d, ctes)[i]) {
      InlineCtesAt(d, ctes, i);
      CteReads(d, ctes[i]);
    }
  }

  ghost predicate IsNamed(item: seq<Token>, query: NamedQuery) {
    && ReadNamed(item) == Some(query) && Free(item, IsSelectWord) && Free(item, IsComma)
    && item != [] && item[0].Name?
  }

  ghost predicate AreNamed(items: seq<seq<Token>>, queries: seq<NamedQuery>) {
    |items| == |queries| && forall i :: 0 <= i < |items| ==> IsNamed(items[i], queries[i])
  }

  lemma CtesAreNamed(d: Dialect, ctes: seq<Cte>)
    requires AreReadable(d, ctes)
    ensures AreNamed(CteTokens(d, ctes), AllNamedOf(d, ctes))
  {
    forall i | 0 <= i < |ctes| ensures IsNamed(CteTokens(d, ctes)[i], AllNamedOf(d, ctes)[i]) { CteReads(d, ctes[i]); }
  }

  lemma {:induction false} NamedListReads(items: seq<seq<Token>>, queries: seq<NamedQuery>)
    requires AreNamed(items, queries)
    ensures ReadAllNamed(items) == Some(queries) && Free(Listed(items), IsSelectWord)
  {
    if items != [] {
      assert IsNamed(items[0], queries[0]);
      NamedListReads(items[1..], queries[1..]);
      NamedFirst(items, queries);
      if |items| > 1 { ListedIsFree(items); }
    }
  }

  lemma NamedFirst(items: seq<seq<Token>>, queries: seq<NamedQuery>)
    requires items != [] && queries != [] && IsNamed(items[0], queries[0]) && ReadAllNamed(items[1..]) == Some(queries[1..])
    ensures ReadAllNamed(items) == Some(queries)
  {
    assert [queries[0]] + queries[1..] == queries;
  }

  lemma ListedIsFree(items: seq<seq<Token>>)
    requires |items| > 1 && Free(items[0], IsSelectWord) && Free(Listed(items[1..]), IsSelectWord)
    ensures Free(Listed(items), IsSelectWord)
  {
    FreeOfOne(Comma, IsSelectWord);
    FreeConcat(items[0], [Comma], IsSelectWord);
    FreeConcat(items[0] + [Comma], Listed(items[1..]), IsSelectWord);
  }

  function WithWords(recursive: bool): seq<Token> {
    [Word("WITH")] + if recursive then [Word("RECURSIVE")] else []
  }

  lemma WithWordsRead(d: Dialect, ctes: seq<Cte>, t: Inline, ts: seq<Token>)
    requires Reads(QuoteChar(d), t, ts)
    ensures Reads(QuoteChar(d), WrapInline(WithKeyword(ctes), t, ""), WithWords(AnyRecursive(ctes)) + ts)
  {
    if AnyRecursive(ctes) {
      TwoWordsThen(d, "WITH", "RECURSIVE", t, ts);
      assert "WITH" + " " + ("RECURSIVE" + " ") == "WITH RECURSIVE ";
      assert [Word("WITH")] + ([Word("RECURSIVE")] + ts) == [Word("WITH")] + [Word("RECURSIVE")] + ts;
    } else {
      OneWordThen(d, "WITH", t, ts);
      assert "WITH" + " " == "WITH ";
      assert [Word("WITH")] + [] + ts == [Word("WITH")] + ts;
    }
  }

  /** The head of a WITH statement ends at the main SELECT. */
  lemma HeadIsFound(head: seq<Token>, main: seq<Token>)
    requires Free(head, IsSelectWord) && main != [] && main[0] == Word("SELECT")
    ensures Split(head + main, 0, IsSelectWord)[0] == head && (head + main)[|head|..] == main
  {
    SplitPasses(head, main, 0, IsSelectWord);
    SplitHead(main[0], main[1..], IsSelectWord);
    assert [main[0]] + main[1..] == main && head + [] == head;
  }

  lemma WithWordsAreFree(recursive: bool)
    ensures Free(WithWords(recursive), IsSelectWord)
  {
    FreeOfOne(Word("WITH"), IsSelectWord);
    FreeOfOne(Word("RECURSIVE"), IsSelectWord);
    FreeConcat([Word("WITH")], [Word("RECURSIVE")], IsSelectWord);
    assert [Word("WITH")] + [] == [Word("WITH")];
  }

  lemma WithHead(recursive: bool, list: seq<Token>)
    requires list != [] && list[0].Name?
    ensures
      var head := WithWords(recursive) + list;
      && head[0] == Word("WITH") && |head| > 1 && (head[1] == Word("RECURSIVE") <==> recursive) && head[if recursive then 2 else 1..] == list
  {}

  lemma WithReadsBack(recursive: bool, items: seq<seq<Token>>, queries: seq<NamedQuery>, main: seq<Token>, query: Query)
    requires items != [] && AreNamed(items, queries) && IsMain(main, query)
    ensures ReadWith(WithWords(recursive) + Listed(items) + main) == Some(WithQuery(recursive, queries, query))
  {
    NamedListReads(items, queries);
    assert IsNamed(items[0], queries[0]);
    WithWordsAreFree(recursive);
    FreeConcat(WithWords(recursive), Listed(items), IsSelectWord);
    HeadIsFound(WithWords(recursive) + Listed(items), main);
    WithHead(recursive, Listed(items));
    forall i | 0 <= i < |items| ensures Level(items[i], 0, IsComma) == Some(0) { assert IsNamed(items[i], queries[i]); }
    ItemsOfListed(items);
  }

  ghost predicate IsMain(main: seq<Token>, query: Query) {
    ReadSelect(main) == Some(query) && main != [] && main[0] == Word("SELECT")
  }

  /** What a statement's text with its arguments asks a database for. */
  function AsksWith(d: Dialect, sql: string, args: seq<Value>): Option<WithQuery> {
    match DatabaseReads(d, sql, args) case None => None case Some(ts) => ReadWith(ts)
  }

  lemma InlineWithReads(d: Dialect, ctes: seq<Cte>, items: seq<seq<Token>>, t: Inline, main: seq<Token>)
    requires Aligned(d, InlineCtes(d, ctes), items) && Reads(QuoteChar(d), t, main)
    ensures Reads(QuoteChar(d), InlineWithClause(d, ctes) + Lit(" ") + t, WithWords(AnyRecursive(ctes)) + Listed(items) + main)
  {
    CommasRead(d, InlineCtes(d, ctes), items);
    WithWordsRead(d, ctes, JoinInline(InlineCtes(d, ctes), ", "), Listed(items));
    ReadsSpaced(QuoteChar(d), InlineWithClause(d, ctes), WithWords(AnyRecursive(ctes)) + Listed(items), t, main);
  }

  lemma NamedItems(d: Dialect, ctes: seq<Cte>) returns (items: seq<seq<Token>>)
    requires AreReadable(d, ctes)
    ensures Aligned(d, InlineCtes(d, ctes), items) && AreNamed(items, AllNamedOf(d, ctes)) && |items| == |ctes|
  {
    CtesAlign(d, ctes);
    CtesAreNamed(d, ctes);
    items := CteTokens(d, ctes);
  }

  lemma MainTokens(d: Dialect, s: Select) returns (ts: seq<Token>)
    requires IsReadable(d, s)
    ensures Reads(QuoteChar(d), InlineSelect(d, s), ts) && IsMain(ts, QueryOf(d, s))
  {
    SelectIsRead(d, s);
    ts := SelectTokens(d, s);
  }

  lemma InlineWithAsks(d: Dialect, ctes: seq<Cte>, main: Select) returns (ts: seq<Token>)
    requires ctes != [] && AreReadable(d, ctes) && IsReadable(d, main)
    ensures Reads(QuoteChar(d), InlineWith(d, ctes, main), ts) && ReadWith(ts) == Some(WithOf(d, ctes, main))
  {
    var items := NamedItems(d, ctes);
    var last := MainTokens(d, main);
    var recursive := AnyRecursive(ctes);
    InlineWithReads(d, ctes, items, InlineSelect(d, main), last);
    WithReadsBack(recursive, items, AllNamedOf(d, ctes), last, QueryOf(d, main));
    ts := WithWords(recursive) + Listed(items) + last;
  }

  /** Main result: a database that reads a built WITH statement with its
      arguments is asked for the named queries and the main SELECT that the
      builder holds, in their order, and may recurse exactly when one of them
      was added as recursive. */
  lemma BuiltWithAsks(d: Dialect, ctes: seq<Cte>, main: Select)
    requires TidyCtes(ctes) && TidySelect(main) && CteError(ctes).None? && SelectError(main).None?
    requires ctes != [] && AreReadable(d, ctes) && IsReadable(d, main)
    ensures
      var b := BuildWith(d, ctes, main);
      b.Built? && AsksWith(d, b.sql, b.args) == Some(WithOf(d, ctes, main))
  {
    BuiltWithReadsAsInline(d, ctes, main);
    var ts := InlineWithAsks(d, ctes, main);
    var b := BuildWith(d, ctes, main);
    DatabaseReadsInline(d, b.sql, b.args, InlineWith(d, ctes, main), ts);
  }
}
