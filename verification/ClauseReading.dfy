/** How a SELECT is read clause by clause. The reader works on tokens and knows
    the order of clauses, lists and numbers of SQL, and nothing of the builder
    that prints them. */
module ClauseReading {
  import opened Options
  import opened SqlText
  import opened SqlReading

  const JOIN_WORDS: set<string> := {"INNER", "LEFT", "RIGHT", "FULL", "CROSS"}
  const CLAUSE_WORDS: set<string> := {"FROM", "WHERE", "GROUP", "HAVING", "ORDER", "LIMIT", "OFFSET"} + JOIN_WORDS

  predicate OpensClause(t: Token) {
    t.Word? && t.word in CLAUSE_WORDS
  }

  predicate IsComma(t: Token) {
    t.Comma?
  }

  predicate EndsItem(t: Token) {
    OpensClause(t) || IsComma(t)
  }

  // --------------------------------------------------- the reader

  /** The tokens in groups: outside parentheses each such token begins a new one. */
  function Split(ts: seq<Token>, depth: nat, at: Token -> bool): (groups: seq<seq<Token>>)
    ensures |groups| >= 1
  {
    if ts == [] then [[]]
    else
      var later := if ts[0] == LParen then depth + 1 else if ts[0] == RParen && depth > 0 then depth - 1 else depth;
      var rest := Split(ts[1..], later, at);
      if depth == 0 && at(ts[0]) then [[]] + [[ts[0]] + rest[0]] + rest[1..] else [[ts[0]] + rest[0]] + rest[1..]
  }

  /** The groups behind the first without their first token. */
  function Beheaded(groups: seq<seq<Token>>): seq<seq<Token>> {
    seq(|groups|, i requires 0 <= i < |groups| => if i > 0 && groups[i] != [] then groups[i][1..] else groups[i])
  }

  /** A list whose items are separated by commas. */
  function Items(ts: seq<Token>): seq<seq<Token>> {
    Beheaded(Split(ts, 0, IsComma))
  }

  /** What stands behind a clause's word; nothing if there is no such clause. */
  function Body(chunks: seq<seq<Token>>, word: string): seq<Token> {
    if chunks == [] then []
    else if chunks[0] != [] && chunks[0][0] == Word(word) then chunks[0][1..]
    else Body(chunks[1..], word)
  }

  function JoinsIn(chunks: seq<seq<Token>>): seq<seq<Token>> {
    if chunks == [] then []
    else (if IsJoin(chunks[0]) then [chunks[0]] else []) + JoinsIn(chunks[1..])
  }

  predicate IsJoin(chunk: seq<Token>) {
    chunk != [] && chunk[0].Word? && chunk[0].word in JOIN_WORDS
  }

  /** The place of a clause in a SELECT; joins share one. */
  function Rank(chunk: seq<Token>): nat {
    if IsJoin(chunk) then 2
    else if chunk == [] then 0
    else if chunk[0] == Word("FROM") then 1
    else if chunk[0] == Word("WHERE") then 3
    else if chunk[0] == Word("GROUP") then 4
    else if chunk[0] == Word("HAVING") then 5
    else if chunk[0] == Word("ORDER") then 6
    else if chunk[0] == Word("LIMIT") then 7
    else if chunk[0] == Word("OFFSET") then 8
    else 0
  }

  predicate InOrder(chunks: seq<seq<Token>>) {
    forall i, j :: 0 <= i < j < |chunks| ==> Rank(chunks[i]) < Rank(chunks[j]) || Rank(chunks[i]) == Rank(chunks[j]) == 2
  }

  function NumberOf(body: seq<Token>): Option<nat> {
    if |body| == 1 && body[0].Word? && body[0].word != "" && AllDigits(body[0].word) then Some(Number(body[0].word)) else None
  }

  /** GROUP BY and ORDER BY. */
  function ByItems(body: seq<Token>): seq<seq<Token>> {
    if body == [] then [] else Items(body[1..])
  }

  predicate IsBy(body: seq<Token>) {
    body != [] ==> body[0] == Word("BY")
  }

  /** An item of ORDER BY: what is ordered by, and whether downwards. */
  function OrderItem(item: seq<Token>): (seq<Token>, bool) {
    if item != [] && item[|item| - 1] == Word("DESC") then (item[..|item| - 1], true)
    else if item != [] && item[|item| - 1] == Word("ASC") then (item[..|item| - 1], false)
    else (item, false)
  }

  function OrderItems(items: seq<seq<Token>>): seq<(seq<Token>, bool)> {
    seq(|items|, i requires 0 <= i < |items| => OrderItem(items[i]))
  }

  /** What a SELECT asks for. */
  datatype Query = Query(
    distinct: bool, columns: seq<seq<Token>>, from: seq<Token>, joins: seq<seq<Token>>, conditions: seq<Token>,
    groups: seq<seq<Token>>, having: seq<Token>, order: seq<(seq<Token>, bool)>, limit: Option<nat>, offset: Option<nat>)

  function ReadSelect(ts: seq<Token>): Option<Query> {
    var groups := Split(ts, 0, OpensClause);
    var head, chunks := groups[0], groups[1..];
    if head == [] || head[0] != Word("SELECT") || !InOrder(chunks) || !IsBy(Body(chunks, "GROUP")) || !IsBy(Body(chunks, "ORDER")) then None
    else
      var distinct := |head| > 1 && head[1] == Word("DISTINCT");
      Some(Query(
        distinct, Items(head[if distinct then 2 else 1..]), Body(chunks, "FROM"), JoinsIn(chunks), Body(chunks, "WHERE"),
        ByItems(Body(chunks, "GROUP")), Body(chunks, "HAVING"), OrderItems(ByItems(Body(chunks, "ORDER"))),
        NumberOf(Body(chunks, "LIMIT")), NumberOf(Body(chunks, "OFFSET"))))
  }

  // --------------------------------------------------- closed runs of tokens

  /** Depth after these tokens; None where one of `at` stands outside parentheses
      or a parenthesis is closed that was not opened. */
  function Level(ts: seq<Token>, depth: nat, at: Token -> bool): Option<nat> {
    if ts == [] then Some(depth)
    else if depth == 0 && at(ts[0]) then None
    else if ts[0] == LParen then Level(ts[1..], depth + 1, at)
    else if ts[0] == RParen then if depth == 0 then None else Level(ts[1..], depth - 1, at)
    else Level(ts[1..], depth, at)
  }

  /** No clause begins in these tokens. */
  predicate Solid(ts: seq<Token>) {
    Level(ts, 0, OpensClause) == Some(0)
  }

  /** One item of a list. */
  predicate Item(ts: seq<Token>) {
    Level(ts, 0, EndsItem) == Some(0)
  }

  /** What may stand between parentheses. */
  predicate Inside(ts: seq<Token>) {
    Level(ts, 1, EndsItem) == Some(1)
  }

  lemma {:induction false} LevelConcat(a: seq<Token>, b: seq<Token>, depth: nat, at: Token -> bool)
    requires Level(a, depth, at).Some?
    ensures Level(a + b, depth, at) == Level(b, Level(a, depth, at).value, at)
    decreases a
  {
    if a == [] {
      assert a + b == b;
    } else {
      assert (a + b)[0] == a[0] && (a + b)[1..] == a[1..] + b;
      LevelConcat(a[1..], b, if a[0] == LParen then depth + 1 else if a[0] == RParen then depth - 1 else depth, at);
    }
  }

  lemma {:induction false} LevelWeaker(ts: seq<Token>, depth: nat, at: Token -> bool, fewer: Token -> bool)
    requires Level(ts, depth, at).Some? && forall t :: fewer(t) ==> at(t)
    ensures Level(ts, depth, fewer) == Level(ts, depth, at)
    decreases ts
  {
    if ts != [] {
      LevelWeaker(ts[1..], if ts[0] == LParen then depth + 1 else if ts[0] == RParen then depth - 1 else depth, at, fewer);
    }
  }

  lemma ItemIsSolid(ts: seq<Token>)
    requires Item(ts)
    ensures Solid(ts) && Level(ts, 0, IsComma) == Some(0)
  {
    LevelWeaker(ts, 0, EndsItem, OpensClause);
    LevelWeaker(ts, 0, EndsItem, IsComma);
  }

  lemma ItemsConcat(a: seq<Token>, b: seq<Token>)
    requires Item(a) && Item(b)
    ensures Item(a + b)
  {
    LevelConcat(a, b, 0, EndsItem);
  }

  lemma SolidsConcat(a: seq<Token>, b: seq<Token>)
    requires Solid(a) && Solid(b)
    ensures Solid(a + b)
  {
    LevelConcat(a, b, 0, OpensClause);
  }

  /** Tokens that open, close and end nothing. */
  predicate Quiet(ts: seq<Token>) {
    forall i :: 0 <= i < |ts| ==> ts[i] != LParen && ts[i] != RParen && !EndsItem(ts[i])
  }

  lemma {:induction false} QuietIsItem(ts: seq<Token>)
    requires Quiet(ts)
    ensures Item(ts)
  {
    if ts != [] { QuietIsItem(ts[1..]); }
  }

  lemma EnclosedIsItem(start: seq<Token>, inside: seq<Token>)
    requires Item(start) && Inside(inside)
    ensures Item(start + [LParen] + inside + [RParen])
  {
    LevelConcat(start, [LParen], 0, EndsItem);
    assert [LParen][1..] == [] && [RParen][1..] == [];
    LevelConcat(start + [LParen], inside, 0, EndsItem);
    LevelConcat(start + [LParen] + inside, [RParen], 0, EndsItem);
  }

  /** Below a parenthesis nothing ends an item. */
  lemma {:induction false} LevelDeeper(ts: seq<Token>, depth: nat, at: Token -> bool, other: Token -> bool)
    requires Level(ts, depth, at).Some?
    ensures Level(ts, depth + 1, other) == Some(Level(ts, depth, at).value + 1)
    decreases ts
  {
    if ts != [] {
      LevelDeeper(ts[1..], if ts[0] == LParen then depth + 1 else if ts[0] == RParen then depth - 1 else depth, at, other);
    }
  }

  // --------------------------------------------------- splitting what was put together

  lemma {:induction false} SplitPasses(a: seq<Token>, rest: seq<Token>, depth: nat, at: Token -> bool)
    requires Level(a, depth, at).Some?
    ensures
      var s := Split(rest, Level(a, depth, at).value, at);
      Split(a + rest, depth, at) == [a + s[0]] + s[1..]
    decreases a
  {
    var s := Split(rest, Level(a, depth, at).value, at);
    if a == [] {
      assert a + rest == rest && a + s[0] == s[0];
      assert [s[0]] + s[1..] == s;
    } else {
      assert (a + rest)[0] == a[0] && (a + rest)[1..] == a[1..] + rest;
      SplitPasses(a[1..], rest, if a[0] == LParen then depth + 1 else if a[0] == RParen then depth - 1 else depth, at);
      assert [a[0]] + (a[1..] + s[0]) == a + s[0];
    }
  }

  function Flat(chunks: seq<seq<Token>>): seq<Token> {
    if chunks == [] then [] else chunks[0] + Flat(chunks[1..])
  }

  lemma {:induction false} FlatConcat(a: seq<seq<Token>>, b: seq<seq<Token>>)
    ensures Flat(a + b) == Flat(a) + Flat(b)
  {
    if a == [] {
      assert a + b == b;
    } else {
      assert (a + b)[0] == a[0] && (a + b)[1..] == a[1..] + b;
      FlatConcat(a[1..], b);
    }
  }

  lemma FlatOfOne(chunk: seq<Token>)
    ensures Flat([chunk]) == chunk
  {
    assert [chunk][1..] == [] && Flat([]) == [];
    assert chunk + [] == chunk;
  }

  /** Begins with such a token and holds no other outside parentheses. */
  predicate Chunk(c: seq<Token>, at: Token -> bool) {
    c != [] && at(c[0]) && c[0] != LParen && c[0] != RParen && Level(c[1..], 0, at) == Some(0)
  }

  lemma SplitHead(x: Token, tail: seq<Token>, at: Token -> bool)
    requires at(x) && x != LParen && x != RParen
    ensures Split([x] + tail, 0, at) == [[]] + ([[x] + Split(tail, 0, at)[0]] + Split(tail, 0, at)[1..])
  {
    assert ([x] + tail)[1..] == tail;
  }

  lemma SplitFirst(c: seq<Token>, rest: seq<Token>, more: seq<seq<Token>>, at: Token -> bool)
    requires Chunk(c, at) && Split(rest, 0, at) == [[]] + more
    ensures Split(c + rest, 0, at) == [[]] + ([c] + more)
  {
    var x, tail := c[0], c[1..] + rest;
    SplitPasses(c[1..], rest, 0, at);
    SplitHead(x, tail, at);
    assert ([[]] + more)[1..] == more && c[1..] + [] == c[1..];
    assert Split(tail, 0, at) == [c[1..]] + more;
    assert ([c[1..]] + more)[1..] == more;
    assert [x] + c[1..] == c && [x] + tail == c + rest;
  }

  lemma {:induction false} SplitChunks(chunks: seq<seq<Token>>, at: Token -> bool)
    requires forall i :: 0 <= i < |chunks| ==> Chunk(chunks[i], at)
    ensures Split(Flat(chunks), 0, at) == [[]] + chunks
  {
    if chunks == [] {
      assert [[]] + chunks == [[]];
    } else {
      SplitChunks(chunks[1..], at);
      SplitFirst(chunks[0], Flat(chunks[1..]), chunks[1..], at);
      assert chunks == [chunks[0]] + chunks[1..];
    }
  }

  lemma SplitAll(first: seq<Token>, chunks: seq<seq<Token>>, at: Token -> bool)
    requires Level(first, 0, at) == Some(0) && forall i :: 0 <= i < |chunks| ==> Chunk(chunks[i], at)
    ensures Split(first + Flat(chunks), 0, at) == [first] + chunks
  {
    SplitChunks(chunks, at);
    SplitPasses(first, Flat(chunks), 0, at);
    assert ([[]] + chunks)[1..] == chunks && first + [] == first;
  }

  /** Items with commas between them. */
  function Listed(items: seq<seq<Token>>): seq<Token> {
    if |items| == 0 then [] else if |items| == 1 then items[0] else items[0] + [Comma] + Listed(items[1..])
  }

  function Headed(items: seq<seq<Token>>): seq<seq<Token>> {
    seq(|items|, i requires 0 <= i < |items| => [Comma] + items[i])
  }

  lemma {:induction false} ListedIsFlat(items: seq<seq<Token>>)
    requires items != []
    ensures Listed(items) == items[0] + Flat(Headed(items[1..]))
  {
    if |items| == 1 {
      assert Headed(items[1..]) == [] && items[0] + [] == items[0];
    } else {
      ListedIsFlat(items[1..]);
      var more := Headed(items[1..]);
      assert more[0] == [Comma] + items[1] && more[1..] == Headed(items[1..][1..]);
      assert items[0] + [Comma] + (items[1] + Flat(more[1..])) == items[0] + (([Comma] + items[1]) + Flat(more[1..]));
    }
  }

  lemma HeadedAreChunks(items: seq<seq<Token>>)
    requires forall i :: 0 <= i < |items| ==> Level(items[i], 0, IsComma) == Some(0)
    ensures forall i :: 0 <= i < |items| ==> Chunk(Headed(items)[i], IsComma)
  {
    forall i | 0 <= i < |items| ensures Chunk(Headed(items)[i], IsComma) { assert Headed(items)[i][1..] == items[i]; }
  }

  lemma BeheadedIs(first: seq<Token>, items: seq<seq<Token>>)
    ensures Beheaded([first] + Headed(items)) == [first] + items
  {
    var groups := [first] + Headed(items);
    forall i | 0 < i < |groups| ensures Beheaded(groups)[i] == items[i - 1] {
      assert groups[i] == [Comma] + items[i - 1];
      assert ([Comma] + items[i - 1])[1..] == items[i - 1];
    }
  }

  /** A list is read back as its items. */
  lemma ItemsOfListed(items: seq<seq<Token>>)
    requires items != [] && forall i :: 0 <= i < |items| ==> Level(items[i], 0, IsComma) == Some(0)
    ensures Items(Listed(items)) == items
  {
    ListedIsFlat(items);
    ItemsBehindCommas(items[0], items[1..]);
    assert items == [items[0]] + items[1..];
  }

  lemma ItemsBehindCommas(first: seq<Token>, rest: seq<seq<Token>>)
    requires Level(first, 0, IsComma) == Some(0) && forall i :: 0 <= i < |rest| ==> Level(rest[i], 0, IsComma) == Some(0)
    ensures Items(first + Flat(Headed(rest))) == [first] + rest
  {
    HeadedAreChunks(rest);
    SplitAll(first, Headed(rest), IsComma);
    ItemsAre(first + Flat(Headed(rest)), first, rest);
  }

  lemma ItemsAre(ts: seq<Token>, first: seq<Token>, items: seq<seq<Token>>)
    requires Split(ts, 0, IsComma) == [first] + Headed(items)
    ensures Items(ts) == [first] + items
  {
    BeheadedIs(first, items);
  }

  lemma {:induction false} ListedIsSolid(items: seq<seq<Token>>)
    requires forall i :: 0 <= i < |items| ==> Item(items[i])
    ensures Solid(Listed(items))
  {
    if |items| >= 1 { ItemIsSolid(items[0]); }
    if |items| > 1 {
      ListedIsSolid(items[1..]);
      assert [Comma][1..] == [] && Solid([Comma]);
      SolidsConcat(items[0], [Comma]);
      SolidsConcat(items[0] + [Comma], Listed(items[1..]));
    }
  }

  // --------------------------------------------------- how a query is spelled

  function Opt(word: string, body: seq<Token>): seq<seq<Token>> {
    if body == [] then [] else [[Word(word)] + body]
  }

  function By(items: seq<seq<Token>>): seq<Token> {
    if items == [] then [] else [Word("BY")] + Listed(items)
  }

  function Directed(order: seq<(seq<Token>, bool)>): seq<seq<Token>> {
    seq(|order|, i requires 0 <= i < |order| => order[i].0 + [Word(if order[i].1 then "DESC" else "ASC")])
  }

  function Numeral(n: Option<nat>): seq<Token> {
    if n.None? then [] else [Word(Decimal(n.value))]
  }

  function HeadOf(p: Query): seq<Token> {
    [Word("SELECT")] + (if p.distinct then [Word("DISTINCT")] else []) + Listed(p.columns)
  }

  function Spelled(p: Query): seq<seq<Token>> {
    Opt("FROM", p.from) + p.joins + Opt("WHERE", p.conditions) + Opt("GROUP", By(p.groups)) + Opt("HAVING", p.having)
    + Opt("ORDER", By(Directed(p.order))) + Opt("LIMIT", Numeral(p.limit)) + Opt("OFFSET", Numeral(p.offset))
  }

  /** Parts that do not run into one another. */
  predicate Readable(p: Query) {
    && p.columns != [] && (forall i :: 0 <= i < |p.columns| ==> Item(p.columns[i]))
    && Listed(p.columns) != [] && Listed(p.columns)[0] != Word("DISTINCT")
    && Solid(p.from) && Solid(p.conditions) && Solid(p.having)
    && (forall i :: 0 <= i < |p.joins| ==> Chunk(p.joins[i], OpensClause) && IsJoin(p.joins[i]))
    && (forall i :: 0 <= i < |p.groups| ==> Item(p.groups[i]))
    && (forall i :: 0 <= i < |p.order| ==> Item(p.order[i].0))
  }

  lemma HeadIsSolid(p: Query)
    requires Readable(p)
    ensures Solid(HeadOf(p))
  {
    ListedIsSolid(p.columns);
    var words := [Word("SELECT")] + (if p.distinct then [Word("DISTINCT")] else []);
    QuietIsItem(words);
    ItemIsSolid(words);
    SolidsConcat(words, Listed(p.columns));
  }

  lemma ByIsSolid(items: seq<seq<Token>>)
    requires forall i :: 0 <= i < |items| ==> Item(items[i])
    ensures Solid(By(items))
  {
    ListedIsSolid(items);
    QuietIsItem([Word("BY")]);
    ItemIsSolid([Word("BY")]);
    SolidsConcat([Word("BY")], Listed(items));
  }

  lemma DirectedAreItems(order: seq<(seq<Token>, bool)>)
    requires forall i :: 0 <= i < |order| ==> Item(order[i].0)
    ensures forall i :: 0 <= i < |order| ==> Item(Directed(order)[i])
    ensures OrderItems(Directed(order)) == order
  {
    forall i | 0 <= i < |order| ensures Item(Directed(order)[i]) && OrderItem(Directed(order)[i]) == order[i] {
      var word := [Word(if order[i].1 then "DESC" else "ASC")];
      QuietIsItem(word);
      ItemsConcat(order[i].0, word);
      assert (order[i].0 + word)[..|order[i].0 + word| - 1] == order[i].0;
    }
  }

  lemma NumeralIsSolid(n: Option<nat>)
    ensures Solid(Numeral(n)) && NumberOf(Numeral(n)) == n
  {
    if n.Some? {
      NumberOfDecimal(n.value);
      DigitsAreNoClause(Decimal(n.value));
      QuietIsItem(Numeral(n));
    } else {
      QuietIsItem([]);
    }
    ItemIsSolid(Numeral(n));
  }

  lemma DigitsAreNoClause(s: string)
    requires AllDigits(s)
    ensures s !in CLAUSE_WORDS
  {
    forall w | w in CLAUSE_WORDS ensures !AllDigits(w) { assert w[0] in w; }
  }

  predicate AllChunks(chunks: seq<seq<Token>>) {
    forall i :: 0 <= i < |chunks| ==> Chunk(chunks[i], OpensClause)
  }

  lemma OptIsChunk(word: string, body: seq<Token>)
    requires word in CLAUSE_WORDS && Solid(body)
    ensures AllChunks(Opt(word, body))
  {
    if body != [] { assert ([Word(word)] + body)[1..] == body; }
  }

  lemma ChunksJoin(a: seq<seq<Token>>, b: seq<seq<Token>>)
    requires AllChunks(a) && AllChunks(b)
    ensures AllChunks(a + b)
  {}

  lemma SpelledAreChunks(p: Query)
    requires Readable(p)
    ensures AllChunks(Spelled(p))
  {
    var a, c, g, h := Opt("FROM", p.from), Opt("WHERE", p.conditions), Opt("GROUP", By(p.groups)), Opt("HAVING", p.having);
    OptIsChunk("FROM", p.from);
    OptIsChunk("WHERE", p.conditions);
    ByIsSolid(p.groups);
    OptIsChunk("GROUP", By(p.groups));
    OptIsChunk("HAVING", p.having);
    DirectedAreItems(p.order);
    ByIsSolid(Directed(p.order));
    OptIsChunk("ORDER", By(Directed(p.order)));
    NumeralIsSolid(p.limit);
    OptIsChunk("LIMIT", Numeral(p.limit));
    NumeralIsSolid(p.offset);
    OptIsChunk("OFFSET", Numeral(p.offset));
    ChunksJoin(a, p.joins);
    ChunksJoin(a + p.joins, c);
    ChunksJoin(a + p.joins + c, g);
    ChunksJoin(a + p.joins + c + g, h);
    ChunksJoin(a + p.joins + c + g + h, Opt("ORDER", By(Directed(p.order))));
    ChunksJoin(a + p.joins + c + g + h + Opt("ORDER", By(Directed(p.order))), Opt("LIMIT", Numeral(p.limit)));
    ChunksJoin(a + p.joins + c + g + h + Opt("ORDER", By(Directed(p.order))) + Opt("LIMIT", Numeral(p.limit)), Opt("OFFSET", Numeral(p.offset)));
  }

  // --------------------------------------------------- finding clauses

  /** Chunks of one rank. */
  predicate Ranked(chunks: seq<seq<Token>>, low: nat, high: nat) {
    InOrder(chunks) && forall i :: 0 <= i < |chunks| ==> low <= Rank(chunks[i]) <= high
  }

  lemma RankedJoin(a: seq<seq<Token>>, b: seq<seq<Token>>, low: nat, mid: nat, high: nat)
    requires Ranked(a, low, mid) && Ranked(b, mid + 1, high) && low <= mid <= high
    ensures Ranked(a + b, low, high)
  {}

  lemma OptIsRanked(word: string, body: seq<Token>, rank: nat)
    requires Rank([Word(word)] + body) == rank
    ensures Ranked(Opt(word, body), rank, rank)
  {}

  lemma SpelledIsInOrder(p: Query)
    requires Readable(p)
    ensures InOrder(Spelled(p))
  {
    OptIsRanked("FROM", p.from, 1);
    OptIsRanked("WHERE", p.conditions, 3);
    OptIsRanked("GROUP", By(p.groups), 4);
    OptIsRanked("HAVING", p.having, 5);
    OptIsRanked("ORDER", By(Directed(p.order)), 6);
    OptIsRanked("LIMIT", Numeral(p.limit), 7);
    OptIsRanked("OFFSET", Numeral(p.offset), 8);
    AllRanked(Opt("FROM", p.from), p.joins, Opt("WHERE", p.conditions), Opt("GROUP", By(p.groups)), Opt("HAVING", p.having),
              Opt("ORDER", By(Directed(p.order))), Opt("LIMIT", Numeral(p.limit)), Opt("OFFSET", Numeral(p.offset)));
  }

  lemma AllRanked(f: seq<seq<Token>>, j: seq<seq<Token>>, w: seq<seq<Token>>, g: seq<seq<Token>>, h: seq<seq<Token>>,
                  o: seq<seq<Token>>, l: seq<seq<Token>>, s: seq<seq<Token>>)
    requires Ranked(f, 1, 1) && (forall i :: 0 <= i < |j| ==> IsJoin(j[i])) && Ranked(w, 3, 3) && Ranked(g, 4, 4)
    requires Ranked(h, 5, 5) && Ranked(o, 6, 6) && Ranked(l, 7, 7) && Ranked(s, 8, 8)
    ensures InOrder(f + j + w + g + h + o + l + s)
  {
    assert Ranked(j, 2, 2);
    RankedJoin(f, j, 1, 1, 2);
    RankedJoin(f + j, w, 1, 2, 3);
    RankedJoin(f + j + w, g, 1, 3, 4);
    RankedJoin(f + j + w + g, h, 1, 4, 5);
    RankedJoin(f + j + w + g + h, o, 1, 5, 6);
    RankedJoin(f + j + w + g + h + o, l, 1, 6, 7);
    RankedJoin(f + j + w + g + h + o + l, s, 1, 7, 8);
  }

  predicate NoneOf(chunks: seq<seq<Token>>, word: string) {
    forall i :: 0 <= i < |chunks| ==> chunks[i] != [] && chunks[i][0] != Word(word)
  }

  /** All chunks begin with this word. */
  predicate Starts(chunks: seq<seq<Token>>, word: string) {
    forall i :: 0 <= i < |chunks| ==> chunks[i] != [] && chunks[i][0] == Word(word)
  }

  lemma StartsOther(chunks: seq<seq<Token>>, word: string, other: string)
    requires Starts(chunks, word) && word != other
    ensures NoneOf(chunks, other)
  {}

  lemma {:induction false} BodyRight(a: seq<seq<Token>>, b: seq<seq<Token>>, word: string)
    requires NoneOf(a, word)
    ensures Body(a + b, word) == Body(b, word)
    decreases a
  {
    if a == [] {
      assert a + b == b;
    } else {
      assert (a + b)[0] == a[0] && (a + b)[1..] == a[1..] + b;
      BodyRight(a[1..], b, word);
    }
  }

  lemma {:induction false} BodyLeft(a: seq<seq<Token>>, b: seq<seq<Token>>, word: string)
    requires NoneOf(b, word)
    ensures Body(a + b, word) == Body(a, word)
    decreases a
  {
    if a == [] {
      assert a + b == b;
      NoBody(b, word);
    } else {
      assert (a + b)[0] == a[0] && (a + b)[1..] == a[1..] + b;
      BodyLeft(a[1..], b, word);
    }
  }

  lemma BodyOfOpt(word: string, body: seq<Token>)
    ensures Body(Opt(word, body), word) == body && Starts(Opt(word, body), word)
  {
    if body != [] { assert ([Word(word)] + body)[1..] == body; }
  }

  lemma {:induction false} NoBody(chunks: seq<seq<Token>>, word: string)
    requires NoneOf(chunks, word)
    ensures Body(chunks, word) == []
  {
    if chunks != [] { NoBody(chunks[1..], word); }
  }

  lemma {:induction false} JoinsConcat(a: seq<seq<Token>>, b: seq<seq<Token>>)
    ensures JoinsIn(a + b) == JoinsIn(a) + JoinsIn(b)
  {
    if a == [] {
      assert a + b == b;
    } else {
      assert (a + b)[0] == a[0] && (a + b)[1..] == a[1..] + b;
      JoinsConcat(a[1..], b);
    }
  }

  lemma {:induction false} AllJoins(chunks: seq<seq<Token>>)
    requires forall i :: 0 <= i < |chunks| ==> IsJoin(chunks[i])
    ensures JoinsIn(chunks) == chunks
  {
    if chunks != [] {
      AllJoins(chunks[1..]);
      assert chunks == [chunks[0]] + chunks[1..];
    }
  }

  lemma {:induction false} NoJoins(chunks: seq<seq<Token>>)
    requires forall i :: 0 <= i < |chunks| ==> !IsJoin(chunks[i])
    ensures JoinsIn(chunks) == []
  {
    if chunks != [] { NoJoins(chunks[1..]); }
  }

  /** The segments of a statement: each but the joins begins with its word. */
  predicate Segments(f: seq<seq<Token>>, j: seq<seq<Token>>, w: seq<seq<Token>>, g: seq<seq<Token>>, h: seq<seq<Token>>,
                     o: seq<seq<Token>>, l: seq<seq<Token>>, s: seq<seq<Token>>) {
    && Starts(f, "FROM") && (forall i :: 0 <= i < |j| ==> IsJoin(j[i])) && Starts(w, "WHERE") && Starts(g, "GROUP")
    && Starts(h, "HAVING") && Starts(o, "ORDER") && Starts(l, "LIMIT") && Starts(s, "OFFSET")
  }

  /** A word that begins none of the later segments. */
  lemma CutFrom(f: seq<seq<Token>>, j: seq<seq<Token>>, w: seq<seq<Token>>, g: seq<seq<Token>>, h: seq<seq<Token>>,
                o: seq<seq<Token>>, l: seq<seq<Token>>, s: seq<seq<Token>>)
    requires Segments(f, j, w, g, h, o, l, s)
    ensures Body(f + j + w + g + h + o + l + s, "FROM") == Body(f, "FROM")
    ensures Body(f + j + w + g + h + o + l + s, "WHERE") == Body(w, "WHERE")
    ensures Body(f + j + w + g + h + o + l + s, "GROUP") == Body(g, "GROUP")
  {
    BodyLeft(f + j + w + g + h + o + l, s, "FROM");
    BodyLeft(f + j + w + g + h + o, l, "FROM");
    BodyLeft(f + j + w + g + h, o, "FROM");
    BodyLeft(f + j + w + g, h, "FROM");
    BodyLeft(f + j + w, g, "FROM");
    BodyLeft(f + j, w, "FROM");
    BodyLeft(f, j, "FROM");
    BodyLeft(f + j + w + g + h + o + l, s, "WHERE");
    BodyLeft(f + j + w + g + h + o, l, "WHERE");
    BodyLeft(f + j + w + g + h, o, "WHERE");
    BodyLeft(f + j + w + g, h, "WHERE");
    BodyLeft(f + j + w, g, "WHERE");
    BodyRight(f + j, w, "WHERE");
    BodyLeft(f + j + w + g + h + o + l, s, "GROUP");
    BodyLeft(f + j + w + g + h + o, l, "GROUP");
    BodyLeft(f + j + w + g + h, o, "GROUP");
    BodyLeft(f + j + w + g, h, "GROUP");
    BodyRight(f + j + w, g, "GROUP");
  }

  lemma CutBack(f: seq<seq<Token>>, j: seq<seq<Token>>, w: seq<seq<Token>>, g: seq<seq<Token>>, h: seq<seq<Token>>,
                o: seq<seq<Token>>, l: seq<seq<Token>>, s: seq<seq<Token>>)
    requires Segments(f, j, w, g, h, o, l, s)
    ensures Body(f + j + w + g + h + o + l + s, "HAVING") == Body(h, "HAVING")
    ensures Body(f + j + w + g + h + o + l + s, "ORDER") == Body(o, "ORDER")
    ensures Body(f + j + w + g + h + o + l + s, "LIMIT") == Body(l, "LIMIT")
    ensures Body(f + j + w + g + h + o + l + s, "OFFSET") == Body(s, "OFFSET")
  {
    BodyLeft(f + j + w + g + h + o + l, s, "HAVING");
    BodyLeft(f + j + w + g + h + o, l, "HAVING");
    BodyLeft(f + j + w + g + h, o, "HAVING");
    BodyRight(f + j + w + g, h, "HAVING");
    BodyLeft(f + j + w + g + h + o + l, s, "ORDER");
    BodyLeft(f + j + w + g + h + o, l, "ORDER");
    BodyRight(f + j + w + g + h, o, "ORDER");
    BodyLeft(f + j + w + g + h + o + l, s, "LIMIT");
    BodyRight(f + j + w + g + h + o, l, "LIMIT");
    BodyRight(f + j + w + g + h + o + l, s, "OFFSET");
  }

  /** The clauses of a spelled query. */
  lemma ClausesFound(p: Query)
    requires Readable(p)
    ensures
      var chunks := Spelled(p);
      && Body(chunks, "FROM") == p.from && JoinsIn(chunks) == p.joins && Body(chunks, "WHERE") == p.conditions
      && Body(chunks, "GROUP") == By(p.groups) && Body(chunks, "HAVING") == p.having && Body(chunks, "ORDER") == By(Directed(p.order))
      && Body(chunks, "LIMIT") == Numeral(p.limit) && Body(chunks, "OFFSET") == Numeral(p.offset)
  {
    var f, j, w, g, h := Opt("FROM", p.from), p.joins, Opt("WHERE", p.conditions), Opt("GROUP", By(p.groups)), Opt("HAVING", p.having);
    var o, l, s := Opt("ORDER", By(Directed(p.order))), Opt("LIMIT", Numeral(p.limit)), Opt("OFFSET", Numeral(p.offset));
    BodyOfOpt("FROM", p.from);
    BodyOfOpt("WHERE", p.conditions);
    BodyOfOpt("GROUP", By(p.groups));
    BodyOfOpt("HAVING", p.having);
    BodyOfOpt("ORDER", By(Directed(p.order)));
    BodyOfOpt("LIMIT", Numeral(p.limit));
    BodyOfOpt("OFFSET", Numeral(p.offset));
    CutFrom(f, j, w, g, h, o, l, s);
    CutBack(f, j, w, g, h, o, l, s);
    JoinsFound(f, j, w, g, h, o, l, s);
  }

  lemma JoinsFound(f: seq<seq<Token>>, j: seq<seq<Token>>, w: seq<seq<Token>>, g: seq<seq<Token>>, h: seq<seq<Token>>,
                   o: seq<seq<Token>>, l: seq<seq<Token>>, s: seq<seq<Token>>)
    requires Segments(f, j, w, g, h, o, l, s)
    ensures JoinsIn(f + j + w + g + h + o + l + s) == j
  {
    JoinsAmong(f, j, w + g + h + o + l + s);
    assert f + j + w + g + h + o + l + s == f + j + (w + g + h + o + l + s);
  }

  lemma JoinsAmong(f: seq<seq<Token>>, j: seq<seq<Token>>, rest: seq<seq<Token>>)
    requires (forall i :: 0 <= i < |j| ==> IsJoin(j[i])) && (forall i :: 0 <= i < |f| ==> !IsJoin(f[i])) && forall i :: 0 <= i < |rest| ==> !IsJoin(rest[i])
    ensures JoinsIn(f + j + rest) == j
  {
    JoinsConcat(f + j, rest);
    JoinsConcat(f, j);
    NoJoins(f);
    AllJoins(j);
    NoJoins(rest);
  }

  /** Main result of this part: a spelled query is read back as it is. */
  lemma SpelledReadsBack(p: Query)
    requires Readable(p)
    ensures ReadSelect(HeadOf(p) + Flat(Spelled(p))) == Some(p)
  {
    var head := HeadOf(p);
    HeadIsSolid(p);
    SpelledAreChunks(p);
    SplitAll(head, Spelled(p), OpensClause);
    assert ([head] + Spelled(p))[1..] == Spelled(p);
    SpelledIsInOrder(p);
    ClausesFound(p);
    HeadReadsBack(p);
    ListsReadBack(p);
    NumeralIsSolid(p.limit);
    NumeralIsSolid(p.offset);
  }

  lemma HeadReadsBack(p: Query)
    requires Readable(p)
    ensures
      var head := HeadOf(p);
      && head != [] && head[0] == Word("SELECT") && (p.distinct <==> |head| > 1 && head[1] == Word("DISTINCT"))
      && Items(head[if p.distinct then 2 else 1..]) == p.columns
  {
    var head := HeadOf(p);
    assert head[if p.distinct then 2 else 1..] == Listed(p.columns);
    forall i | 0 <= i < |p.columns| ensures Level(p.columns[i], 0, IsComma) == Some(0) { ItemIsSolid(p.columns[i]); }
    ItemsOfListed(p.columns);
    if !p.distinct { assert head[1] == Listed(p.columns)[0]; }
  }

  lemma ByReadsBack(items: seq<seq<Token>>)
    requires forall i :: 0 <= i < |items| ==> Item(items[i])
    ensures IsBy(By(items)) && ByItems(By(items)) == items
  {
    if items != [] {
      forall i | 0 <= i < |items| ensures Level(items[i], 0, IsComma) == Some(0) { ItemIsSolid(items[i]); }
      ItemsOfListed(items);
      assert By(items)[1..] == Listed(items);
    }
  }

  lemma ListsReadBack(p: Query)
    requires Readable(p)
    ensures IsBy(By(p.groups)) && ByItems(By(p.groups)) == p.groups
    ensures IsBy(By(Directed(p.order))) && OrderItems(ByItems(By(Directed(p.order)))) == p.order
  {
    ByReadsBack(p.groups);
    DirectedAreItems(p.order);
    ByReadsBack(Directed(p.order));
  }
}
