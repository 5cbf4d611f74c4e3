/** Pages of a collection: the request, the total inferred from a short page,
    and the links that lead through the whole result (crud/crud.go:311-515,
    pagination/pagination.go:33-104, processor/processor.go:110-182). */
module Pagination {
  import opened Options
  import opened SqlText
  import Validation

  const MAX_PAGE: int := 10_000
  const MAX_LIMIT: int := Validation.MAX_LIMIT_VALUE
  const MAX_OFFSET: int := Validation.MAX_OFFSET_VALUE
  const MAX_INT: int := 0x7FFF_FFFF_FFFF_FFFF

  /** A database row: whether the caller may read it, and what is left of it
      once forbidden fields are gone; None when filtering fails. */
  datatype Row = Row(readable: bool, shown: Option<string>)

  type Params = map<string, seq<string>>
  datatype Url = Url(path: string, params: Params)

  datatype CountMode = CountExact | CountEstimate | CountNone

  /** `estimate` is what the database's statistics say, when they may be used. */
  datatype Config = Config(defaultLimit: int, maxLimit: int, mode: CountMode, estimate: Option<int>)

  // --------------------------------------------------- scanning

  /** The shown rows up to the first that cannot be filtered, and how many rows
      were read. */
  function Scan(rows: seq<Row>): (r: (Option<seq<string>>, nat))
    ensures r.1 <= |rows| && (r.0.Some? ==> r.1 == |rows|)
  {
    if rows == [] then (Some([]), 0)
    else
      var (items, scanned) := Scan(rows[..|rows| - 1]);
      var last := rows[|rows| - 1];
      if items.None? then (None, scanned)
      else if !last.readable then (items, scanned + 1)
      else if last.shown.None? then (None, scanned + 1)
      else (Some(items.value + [last.shown.value]), scanned + 1)
  }

  lemma {:induction false} ScanStops(rows: seq<Row>, k: nat)
    requires k <= |rows| && Scan(rows[..k]).0.None?
    ensures Scan(rows) == Scan(rows[..k])
    decreases |rows|
  {
    if k < |rows| {
      assert rows[..|rows| - 1][..k] == rows[..k];
      ScanStops(rows[..|rows| - 1], k);
    } else {
      assert rows[..k] == rows;
    }
  }

  /** scanRows: rows are appended first; those the caller may not read are cut
      off again, but counted. */
  method ScanRows(rows: seq<Row>) returns (items: Option<seq<string>>, scanned: nat)
    ensures (items, scanned) == Scan(rows)
  {
    var results: seq<string> := [];
    scanned := 0;
    for i := 0 to |rows|
      invariant scanned == i && Scan(rows[..i]) == (Some(results), i)
    {
      assert rows[..i + 1][..i] == rows[..i];
      scanned := scanned + 1;
      results := results + [""];
      if !rows[i].readable {
        results := results[..|results| - 1];
        continue;
      }
      if rows[i].shown.None? {
        ScanStops(rows, i + 1);
        return None, scanned;
      }
      results := results[|results| - 1 := rows[i].shown.value];
      assert results == results[..|results| - 1] + [rows[i].shown.value];
    }
    assert rows[..|rows|] == rows;
    return Some(results), scanned;
  }

  // --------------------------------------------------- the total

  function Min(a: int, b: int): int {
    if a < b then a else b
  }

  /** What the database returns: LIMIT and OFFSET, or everything. */
  function Window(db: seq<Row>, limit: int, offset: nat): seq<Row> {
    if limit <= 0 then db[Min(offset, |db|)..] else db[Min(offset, |db|)..Min(offset + limit, |db|)]
  }

  /** The total a page of a table of n rows reports. */
  function Total(includeCount: bool, mode: CountMode, limit: int, offset: nat, n: nat, usable: Option<int>): Option<int> {
    if !includeCount || mode.CountNone? then None
    else if offset > n then Some(offset)
    else if mode.CountEstimate? && usable.Some? && 0 < limit <= n - offset then usable
    else Some(n)
  }

  /** countTotal, where `scanned` rows came back for the page and `exact` is
      what the counting query answers. Counting exactly, the total is the number
      of rows exactly when the offset is not beyond the end; from there on a
      page reports its own offset. An estimate is given for full pages only. */
  method CountTotal(ghost db: seq<Row>, includeCount: bool, mode: CountMode, limit: int, offset: nat, scanned: int, usable: Option<int>, exact: int)
    returns (total: Option<int>)
    requires scanned == |Window(db, limit, offset)| && exact == |db|
    ensures total.None? <==> !includeCount || mode.CountNone?
    ensures total.Some? && mode.CountExact? ==> (total.value == |db| <==> offset <= |db|)
    ensures total.Some? && offset >= |db| ==> total.value == offset
    ensures total.Some? && offset <= |db| && total.value != |db| ==> mode.CountEstimate? && total == usable && scanned == limit
    ensures total == Total(includeCount, mode, limit, offset, |db|, usable)
  {
    if !includeCount || mode == CountNone {
      return None;
    }
    if limit <= 0 || scanned < limit {
      return Some(offset + scanned);
    }
    if mode == CountEstimate {
      if usable.Some? {
        return usable;
      }
    }
    return Some(exact);
  }

  // --------------------------------------------------- requests and links

  function First(params: Params, key: string): string {
    if key in params && params[key] != [] then params[key][0] else ""
  }

  /** strconv.Atoi. */
  function Atoi(s: string): Option<int> {
    var negative := s != "" && s[0] == '-';
    var digits := if s != "" && (s[0] == '-' || s[0] == '+') then s[1..] else s;
    if digits == "" || !AllDigits(digits) then None
    else if negative then if Number(digits) <= MAX_INT + 1 then Some(0 - Number(digits) as int) else None
    else if Number(digits) <= MAX_INT then Some(Number(digits)) else None
  }

  function ParseInt(value: string, defaultValue: int, maxValue: int): int {
    if value == "" then defaultValue
    else match Atoi(value)
      case None => defaultValue
      case Some(n) => if n < 0 then defaultValue else if n > maxValue then maxValue else n
  }

  lemma AtoiOfDecimal(n: nat)
    requires n <= MAX_INT
    ensures Decimal(n) != "" && Atoi(Decimal(n)) == Some(n)
  {
    NumberOfDecimal(n);
    assert Decimal(n)[0] in Decimal(n);
  }

  /** A number in range is taken up to the maximum, with a plus sign or without;
      one below zero, one too large for an integer and what is no number select
      the default. */
  lemma ParseIntMeans(value: string, defaultValue: int, maxValue: int)
    ensures AllDigits(value) && value != "" && Number(value) <= MAX_INT ==> ParseInt(value, defaultValue, maxValue) == Min(Number(value), maxValue)
    ensures AllDigits(value) && value != "" && Number(value) <= MAX_INT ==> ParseInt("+" + value, defaultValue, maxValue) == Min(Number(value), maxValue)
    ensures AllDigits(value) && value != "" && Number(value) > 0 ==> ParseInt("-" + value, defaultValue, maxValue) == defaultValue
    ensures AllDigits(value) && Number(value) > MAX_INT ==> ParseInt(value, defaultValue, maxValue) == defaultValue
    ensures (exists i :: 0 < i < |value| && !IsDigit(value[i])) ==> ParseInt(value, defaultValue, maxValue) == defaultValue
    ensures value == "" || (!IsDigit(value[0]) && value[0] != '-' && value[0] != '+') ==> ParseInt(value, defaultValue, maxValue) == defaultValue
  {
    assert value != "" ==> value[0] in value;
    assert ("+" + value)[1..] == value && ("-" + value)[1..] == value;
    if i :| 0 < i < |value| && !IsDigit(value[i]) {
      assert value[1..][i - 1] == value[i];
    }
  }

  /** The parameters a link keeps: all but limit and page that are not empty. */
  function Kept(params: Params): Params {
    map k | k in params && k != "limit" && k != "page" && First(params, k) != "" :: params[k]
  }

  function PageParams(params: Params, limit: int, page: int, defaultLimit: int): Params {
    var limited := if limit > 0 && limit != defaultLimit then Kept(params)["limit" := [Decimal(limit)]] else Kept(params);
    if page > 1 then limited["page" := [Decimal(page)]] else limited
  }

  /** buildPaginationURL, over the parameters in any order. */
  method BuildPaginationURL(path: string, params: Params, limit: int, page: int, defaultLimit: int) returns (url: Url)
    ensures url == Url(path, PageParams(params, limit, page, defaultLimit))
  {
    var newParams: Params := map[];
    var keys := params.Keys;
    while keys != {}
      invariant keys <= params.Keys
      invariant newParams == map k | k in Kept(params) && k !in keys :: params[k]
    {
      var k :| k in keys;
      keys := keys - {k};
      if k != "limit" && k != "page" && |params[k]| > 0 && params[k][0] != "" {
        newParams := newParams[k := params[k]];
      }
    }
    assert newParams == Kept(params);
    if limit > 0 && limit != defaultLimit {
      newParams := newParams["limit" := [Decimal(limit)]];
    }
    if page > 1 {
      newParams := newParams["page" := [Decimal(page)]];
    }
    return Url(path, newParams);
  }

  class HydraView {
    var next: Option<Url>
    var last: Option<Url>

    constructor ()
      ensures next == None && last == None
    {
      next, last := None, None;
    }
  }

  function PageUrl(url: Url, limit: int, page: int, defaultLimit: int): Url {
    Url(url.path, PageParams(url.params, limit, page, defaultLimit))
  }

  function LastPage(total: int, limit: int): int
    requires limit > 0
  {
    TruncatedDivision(total + limit - 1, limit)
  }

  /** Go's division of integers rounds toward zero. */
  function TruncatedDivision(a: int, b: int): int
    requires b > 0
  {
    if a >= 0 then a / b else -(-a / b)
  }

  function NextLink(total: Option<int>, itemCount: int, limit: int, page: int, url: Url, defaultLimit: int): Option<Url> {
    if limit <= 0 then None
    else if total.None? then if itemCount >= limit then Some(PageUrl(url, limit, page + 1, defaultLimit)) else None
    else if page < LastPage(total.value, limit) then Some(PageUrl(url, limit, page + 1, defaultLimit)) else None
  }

  function LastLink(total: Option<int>, limit: int, url: Url, defaultLimit: int): Option<Url> {
    if limit <= 0 || total.None? then None else Some(PageUrl(url, limit, LastPage(total.value, limit), defaultLimit))
  }

  method SetNavigation(view: HydraView, total: Option<int>, itemCount: int, limit: int, page: int, url: Url, defaultLimit: int)
    requires view.next == None && view.last == None
    modifies view
    ensures view.next == NextLink(total, itemCount, limit, page, url, defaultLimit)
    ensures view.last == LastLink(total, limit, url, defaultLimit)
  {
    if limit <= 0 {
      return;
    }
    if total.None? {
      if itemCount >= limit {
        var nextURL := BuildPaginationURL(url.path, url.params, limit, page + 1, defaultLimit);
        view.next := Some(nextURL);
      }
      return;
    }
    var lastPage := TruncatedDivision(total.value + limit - 1, limit);
    if page < lastPage {
      var nextURL := BuildPaginationURL(url.path, url.params, limit, page + 1, defaultLimit);
      view.next := Some(nextURL);
    }
    var lastURL := BuildPaginationURL(url.path, url.params, limit, lastPage, defaultLimit);
    view.last := Some(lastURL);
  }

  // --------------------------------------------------- serving a request

  function LimitOf(cfg: Config, url: Url): int {
    ParseInt(First(url.params, "limit"), cfg.defaultLimit, cfg.maxLimit)
  }

  function PageOf(url: Url): int {
    var page := ParseInt(First(url.params, "page"), 1, MAX_PAGE);
    if page < 1 then 1 else page
  }

  predicate CountOf(url: Url) {
    First(url.params, "count") != "false"
  }

  /** A page: the database rows it was made from, and its links. */
  datatype Response = Page(rows: seq<Row>, items: seq<string>, total: Option<int>, next: Option<Url>, last: Option<Url>) | Refused

  function Serve(cfg: Config, db: seq<Row>, url: Url): Response {
    var limit, page := LimitOf(cfg, url), PageOf(url);
    var offset := (page - 1) * limit;
    if limit < 0 || limit > MAX_LIMIT || offset < 0 || offset > MAX_OFFSET then Refused
    else
      var rows := Window(db, limit, offset);
      var (items, scanned) := Scan(rows);
      if items.None? then Refused
      else
        var total := Total(CountOf(url), cfg.mode, limit, offset, |db|, cfg.estimate);
        Page(rows, items.value, total, NextLink(total, |items.value|, limit, page, url, cfg.defaultLimit),
             LastLink(total, limit, url, cfg.defaultLimit))
  }

  method GetAll(cfg: Config, db: seq<Row>, url: Url) returns (response: Response)
    ensures response == Serve(cfg, db, url)
  {
    var limit := LimitOf(cfg, url);
    var page := ParseInt(First(url.params, "page"), 1, MAX_PAGE);
    if page < 1 {
      page := 1;
    }
    var offset := (page - 1) * limit;
    var includeCount := First(url.params, "count") != "false";
    if limit < 0 || limit > MAX_LIMIT || offset < 0 || offset > MAX_OFFSET {
      return Refused;
    }
    var rows := Window(db, limit, offset);
    var items, scanned := ScanRows(rows);
    if items.None? {
      return Refused;
    }
    var total := CountTotal(db, includeCount, cfg.mode, limit, offset, scanned, cfg.estimate, |db|);
    var view := new HydraView();
    SetNavigation(view, total, |items.value|, limit, page, url, cfg.defaultLimit);
    return Page(rows, items.value, total, view.next, view.last);
  }

  // --------------------------------------------------- one page leads to the next

  /** The request asks for this page, with this many rows a page. */
  predicate Asks(cfg: Config, url: Url, limit: int, page: int) {
    LimitOf(cfg, url) == limit && PageOf(url) == page
  }

  lemma KeptParams(params: Params, key: string)
    requires key != "limit" && key != "page"
    ensures First(Kept(params), key) == First(params, key)
  {}

  /** Every other parameter that says something is in the link, with all its
      values, and no parameter that does not. */
  lemma LinkKeepsAll(url: Url, limit: int, page: int, defaultLimit: int, key: string)
    requires key != "limit" && key != "page"
    ensures
      var link := PageUrl(url, limit, page, defaultLimit).params;
      if key in url.params && url.params[key] != [] && url.params[key][0] != "" then key in link && link[key] == url.params[key]
      else key !in link
  {}

  lemma LinkKeepsOthers(url: Url, limit: int, page: int, defaultLimit: int, key: string)
    requires key != "limit" && key != "page"
    ensures First(PageUrl(url, limit, page, defaultLimit).params, key) == First(url.params, key)
  {
    KeptParams(url.params, key);
  }

  lemma LinkKeepsLimit(cfg: Config, url: Url, limit: int, page: int)
    requires 0 < limit <= MAX_LIMIT && LimitOf(cfg, url) == limit
    ensures LimitOf(cfg, PageUrl(url, limit, page, cfg.defaultLimit)) == limit
  {
    var link := PageUrl(url, limit, page, cfg.defaultLimit).params;
    if limit != cfg.defaultLimit {
      assert First(link, "limit") == Decimal(limit);
      AtoiOfDecimal(limit);
    } else {
      assert First(link, "limit") == "";
    }
  }

  lemma LinkAsksPage(url: Url, limit: int, page: int, defaultLimit: int)
    requires 1 <= page <= MAX_INT
    ensures PageOf(PageUrl(url, limit, page, defaultLimit)) == if page > MAX_PAGE then MAX_PAGE else page
  {
    var link := PageUrl(url, limit, page, defaultLimit).params;
    if page > 1 {
      assert First(link, "page") == Decimal(page);
      AtoiOfDecimal(page);
    } else {
      assert First(link, "page") == "";
    }
  }

  /** A link asks for the page it was made for, up to the page cap. */
  lemma LinkAsks(cfg: Config, url: Url, limit: int, page: int)
    requires 0 < limit <= MAX_LIMIT && LimitOf(cfg, url) == limit && 1 <= page <= MAX_PAGE + 1
    ensures
      var link := PageUrl(url, limit, page, cfg.defaultLimit);
      Asks(cfg, link, limit, Min(page, MAX_PAGE)) && CountOf(link) == CountOf(url)
  {
    LinkKeepsLimit(cfg, url, limit, page);
    LinkAsksPage(url, limit, page, cfg.defaultLimit);
    LinkKeepsOthers(url, limit, page, cfg.defaultLimit, "count");
  }

  // --------------------------------------------------- the walk

  /** Where a request's answer leads. */
  function NextOf(cfg: Config, db: seq<Row>, u: Option<Url>): Option<Url> {
    if u.None? || Serve(cfg, db, u.value).Refused? then None else Serve(cfg, db, u.value).next
  }

  /** The request after following next k times. */
  function Follow(cfg: Config, db: seq<Row>, url: Url, k: nat): Option<Url> {
    if k == 0 then Some(url) else NextOf(cfg, db, Follow(cfg, db, url, k - 1))
  }

  /** Rows the caller may read can be filtered. */
  predicate Filterable(db: seq<Row>) {
    forall i :: 0 <= i < |db| ==> db[i].readable ==> db[i].shown.Some?
  }

  predicate AllReadable(rows: seq<Row>) {
    forall i :: 0 <= i < |rows| ==> rows[i].readable
  }

  /** No row is lost exactly when all may be read. */
  lemma {:induction false} ScanSucceeds(rows: seq<Row>)
    requires Filterable(rows)
    ensures Scan(rows).0.Some? && Scan(rows).1 == |rows| && |Scan(rows).0.value| <= |rows|
    ensures |Scan(rows).0.value| == |rows| <==> AllReadable(rows)
  {
    if rows != [] {
      var n := |rows| - 1;
      ScanSucceeds(rows[..n]);
      assert AllReadable(rows) <==> AllReadable(rows[..n]) && rows[n].readable;
    }
  }

  /** The rows of a page. */
  function PageRows(db: seq<Row>, limit: int, page: int): seq<Row>
    requires limit > 0 && page >= 1
  {
    Window(db, limit, (page - 1) * limit)
  }

  /** Every page up to `reach` offers a next page exactly when it is not the
      last. */
  ghost predicate Leads(cfg: Config, db: seq<Row>, url: Url, limit: int, reach: int, last: int) {
    forall page, u :: 1 <= page <= reach && Asks(cfg, u, limit, page) && CountOf(u) == CountOf(url) ==> ServesPage(cfg, db, u, limit, page, last)
  }

  ghost predicate ServesPage(cfg: Config, db: seq<Row>, u: Url, limit: int, page: int, last: int)
  {
    var r := Serve(cfg, db, u);
    && limit > 0 && page >= 1 && r.Page? && r.rows == PageRows(db, limit, page)
    && r.next == if page < last then Some(PageUrl(u, limit, page + 1, cfg.defaultLimit)) else None
  }

  /** The k-th request of a walk from page 1 asks for page k + 1. */
  ghost predicate Reaches(cfg: Config, db: seq<Row>, url: Url, limit: int, k: nat) {
    var u := Follow(cfg, db, url, k);
    u.Some? && Asks(cfg, u.value, limit, k + 1) && CountOf(u.value) == CountOf(url)
  }

  lemma NextReached(cfg: Config, db: seq<Row>, url: Url, limit: int, last: int, k: nat)
    requires 0 < limit <= MAX_LIMIT && 1 <= k < MAX_PAGE && k < last
    requires Reaches(cfg, db, url, limit, k - 1) && ServesPage(cfg, db, Follow(cfg, db, url, k - 1).value, limit, k, last)
    ensures Reaches(cfg, db, url, limit, k)
  {
    LinkAsks(cfg, Follow(cfg, db, url, k - 1).value, limit, k + 1);
  }

  /** From page 1 the walk reaches every page that all before it lead to. */
  lemma {:induction false} WalkReaches(cfg: Config, db: seq<Row>, url: Url, limit: int, reach: int, last: int, k: nat)
    requires 0 < limit <= MAX_LIMIT && Asks(cfg, url, limit, 1) && Leads(cfg, db, url, limit, reach, last)
    requires k <= reach && k < last && k < MAX_PAGE
    ensures Reaches(cfg, db, url, limit, k)
    ensures k < reach ==> ServesPage(cfg, db, Follow(cfg, db, url, k).value, limit, k + 1, last)
  {
    if k > 0 {
      WalkReaches(cfg, db, url, limit, reach, last, k - 1);
      NextReached(cfg, db, url, limit, last, k);
    }
  }

  /** The rows of the first k pages, in order. */
  function RowsOfPages(db: seq<Row>, limit: int, k: nat): seq<Row>
    requires limit > 0
  {
    if k == 0 then [] else RowsOfPages(db, limit, k - 1) + PageRows(db, limit, k)
  }

  /** Pages are the result cut in pieces: no row twice, none left out. */
  lemma {:induction false} PagesCutRows(db: seq<Row>, limit: int, k: nat)
    requires limit > 0
    ensures RowsOfPages(db, limit, k) == db[..Min(k * limit, |db|)]
  {
    if k > 0 {
      PagesCutRows(db, limit, k - 1);
      assert k * limit == (k - 1) * limit + limit;
      JoinSlices(db, Min((k - 1) * limit, |db|), Min(k * limit, |db|));
    }
  }

  lemma JoinSlices(db: seq<Row>, i: int, j: int)
    requires 0 <= i <= j <= |db|
    ensures db[..i] + db[i..j] == db[..j]
  {}

  // --------------------------------------------------- what is shown

  /** The shown values of the rows the caller may read, in order. */
  function ShownOf(rows: seq<Row>): seq<string> {
    if rows == [] then []
    else (if rows[0].readable && rows[0].shown.Some? then [rows[0].shown.value] else []) + ShownOf(rows[1..])
  }

  lemma {:induction false} ShownConcat(a: seq<Row>, b: seq<Row>)
    ensures ShownOf(a + b) == ShownOf(a) + ShownOf(b)
  {
    if a == [] {
      assert a + b == b;
    } else {
      assert (a + b)[0] == a[0] && (a + b)[1..] == a[1..] + b;
      ShownConcat(a[1..], b);
    }
  }

  lemma ShownOfOne(row: Row)
    ensures ShownOf([row]) == if row.readable && row.shown.Some? then [row.shown.value] else []
  {
    assert [row][1..] == [] && ShownOf([]) == [];
  }

  lemma FilterableSplits(rows: seq<Row>)
    requires rows != []
    ensures Filterable(rows) <==> Filterable(rows[..|rows| - 1]) && (rows[|rows| - 1].readable ==> rows[|rows| - 1].shown.Some?)
  {
    assert rows == rows[..|rows| - 1] + [rows[|rows| - 1]];
  }

  /** The k-th row is the first the caller may read that cannot be filtered. */
  predicate FirstBad(rows: seq<Row>, k: int) {
    0 <= k < |rows| && Filterable(rows[..k]) && rows[k].readable && rows[k].shown.None?
  }

  /** Scanning gives what is shown and counts every row, unless a row the caller
      may read cannot be filtered: then it fails there. */
  lemma {:induction false} ScanMeans(rows: seq<Row>)
    ensures Filterable(rows) ==> Scan(rows) == (Some(ShownOf(rows)), |rows|)
    ensures !Filterable(rows) ==> Scan(rows).0.None? && FirstBad(rows, Scan(rows).1 - 1)
  {
    if rows != [] {
      var n := |rows| - 1;
      ScanMeans(rows[..n]);
      FilterableSplits(rows);
      if Filterable(rows) {
        assert rows == rows[..n] + [rows[n]];
        ShownConcat(rows[..n], [rows[n]]);
        ShownOfOne(rows[n]);
        assert ShownOf(rows[..n]) + [] == ShownOf(rows[..n]);
      } else if Filterable(rows[..n]) {
        assert Scan(rows).1 == |rows|;
      } else {
        var k := Scan(rows[..n]).1 - 1;
        assert rows[..n][..k] == rows[..k];
      }
    }
  }

  /** The items of the first k pages of a walk. */
  function ItemsOfWalk(cfg: Config, db: seq<Row>, url: Url, k: nat): seq<string> {
    if k == 0 then []
    else
      var u := Follow(cfg, db, url, k - 1);
      ItemsOfWalk(cfg, db, url, k - 1) + if u.Some? && Serve(cfg, db, u.value).Page? then Serve(cfg, db, u.value).items else []
  }

  /** A page's items are what its rows show. */
  lemma PageShows(cfg: Config, db: seq<Row>, u: Url)
    requires Serve(cfg, db, u).Page?
    ensures Serve(cfg, db, u).items == ShownOf(Serve(cfg, db, u).rows)
  {
    ScanMeans(Serve(cfg, db, u).rows);
  }

  /** Whatever is counted: the items of a walk that visits its pages are what
      the rows of these pages show, in order; of the whole result, if these are
      all rows. */
  lemma {:induction false} WalkShows(cfg: Config, db: seq<Row>, url: Url, limit: int, last: int, k: nat)
    requires limit > 0 && VisitsAll(cfg, db, url, limit, last) && k <= last
    ensures ItemsOfWalk(cfg, db, url, k) == ShownOf(RowsOfPages(db, limit, k))
  {
    if k > 0 {
      WalkShows(cfg, db, url, limit, last, k - 1);
      var u := Follow(cfg, db, url, k - 1).value;
      assert ServesPage(cfg, db, u, limit, k, last);
      PageShows(cfg, db, u);
      ShownConcat(RowsOfPages(db, limit, k - 1), PageRows(db, limit, k));
    }
  }

  lemma WalkShowsPages(cfg: Config, db: seq<Row>, url: Url, limit: int, last: int)
    requires limit > 0
    ensures VisitsAll(cfg, db, url, limit, last) ==> ItemsOfWalk(cfg, db, url, last) == ShownOf(RowsOfPages(db, limit, last))
  {
    if VisitsAll(cfg, db, url, limit, last) { WalkShows(cfg, db, url, limit, last, last); }
  }

  // --------------------------------------------------- counting exactly

  /** The number of pages, at least one. */
  function Pages(n: nat, limit: int): int
    requires limit > 0
  {
    if n == 0 then 1 else (n + limit - 1) / limit
  }

  lemma PagesCover(n: nat, limit: int)
    requires limit > 0
    ensures Pages(n, limit) >= 1 && n <= Pages(n, limit) * limit && (n > 0 ==> (Pages(n, limit) - 1) * limit < n)
  {
    if n > 0 {
      var q := (n + limit - 1) / limit;
      assert q * limit <= n + limit - 1 < q * limit + limit;
      assert q * limit == (q - 1) * limit + limit;
      QuotientIsPositive(n + limit - 1, limit);
    }
  }

  lemma QuotientIsPositive(a: int, b: int)
    requires 0 < b <= a
    ensures a / b >= 1
  {}

  lemma QuotientIsZero(a: int, b: int)
    requires 0 <= a < b
    ensures a / b == 0
  {}

  /** Offsets of pages lie within the result. */
  lemma OffsetFits(n: nat, limit: int, page: int)
    requires limit > 0 && 1 <= page <= Pages(n, limit)
    ensures 0 <= (page - 1) * limit <= n
  {
    PagesCover(n, limit);
    OffsetGrows(page - 1, Pages(n, limit) - 1, limit);
  }

  lemma OffsetGrows(a: int, b: int, limit: int)
    requires 0 <= a <= b && limit > 0
    ensures 0 <= a * limit <= b * limit
  {
    assert (b - a) * limit >= 0;
    assert b * limit == a * limit + (b - a) * limit;
  }

  /** Serving a page within the caps. */
  lemma ServeIs(cfg: Config, db: seq<Row>, u: Url, limit: int, page: int, offset: int)
    requires Filterable(db) && 0 < limit <= MAX_LIMIT && Asks(cfg, u, limit, page)
    requires offset == (page - 1) * limit && 0 <= offset <= MAX_OFFSET
    ensures
      var r := Serve(cfg, db, u);
      && r.Page? && r.rows == Window(db, limit, offset) && Scan(r.rows).0 == Some(r.items)
      && r.total == Total(CountOf(u), cfg.mode, limit, offset, |db|, cfg.estimate)
      && r.next == NextLink(r.total, |r.items|, limit, page, u, cfg.defaultLimit)
  {
    WindowIsFilterable(db, limit, offset);
    ScanSucceeds(Window(db, limit, offset));
  }

  /** Of the two ways to count pages, only an empty result tells them apart. */
  lemma LastPageIsPages(n: nat, limit: int, page: int)
    requires limit > 0 && page >= 1
    ensures page < LastPage(n, limit) <==> page < Pages(n, limit)
  {
    if n == 0 { QuotientIsZero(limit - 1, limit); }
  }

  /** The total is counted: always, or because no estimate may be used. */
  predicate CountsExactly(cfg: Config) {
    cfg.mode.CountExact? || (cfg.mode.CountEstimate? && cfg.estimate.None?)
  }

  lemma ExactServes(cfg: Config, db: seq<Row>, u: Url, limit: int, page: int)
    requires CountsExactly(cfg) && CountOf(u) && Filterable(db)
    requires 0 < limit <= MAX_LIMIT && Asks(cfg, u, limit, page)
    requires 1 <= page <= Pages(|db|, limit) && (page - 1) * limit <= MAX_OFFSET
    ensures ServesPage(cfg, db, u, limit, page, Pages(|db|, limit)) && Serve(cfg, db, u).total == Some(|db|)
  {
    var offset := (page - 1) * limit;
    OffsetFits(|db|, limit, page);
    ServeIs(cfg, db, u, limit, page, offset);
    LastPageIsPages(|db|, limit, page);
  }

  /** A request is refused exactly when its limit or offset is not allowed or a
      row of its page cannot be filtered. */
  lemma RefusedMeans(cfg: Config, db: seq<Row>, u: Url, limit: int, page: int)
    requires Asks(cfg, u, limit, page)
    ensures Serve(cfg, db, u).Refused? <==>
      limit < 0 || limit > 10000 || (page - 1) * limit > 1000000 || !Filterable(Window(db, limit, (page - 1) * limit))
  {
    assert limit >= 0 ==> (page - 1) * limit >= 0;
    if limit >= 0 { ScanMeans(Window(db, limit, (page - 1) * limit)); }
  }

  /** The last link asks for the last page, up to the page cap. */
  lemma LastLinkLeads(cfg: Config, db: seq<Row>, u: Url, limit: int, page: int)
    requires CountsExactly(cfg) && CountOf(u) && Filterable(db)
    requires 0 < limit <= MAX_LIMIT && Asks(cfg, u, limit, page)
    requires 1 <= page <= Pages(|db|, limit) <= MAX_INT && (page - 1) * limit <= MAX_OFFSET
    ensures
      var r := Serve(cfg, db, u);
      r.Page? && r.last.Some? && Asks(cfg, r.last.value, limit, Min(Pages(|db|, limit), MAX_PAGE)) && CountOf(r.last.value)
  {
    ExactServes(cfg, db, u, limit, page);
    var last := LastPage(|db|, limit);
    if |db| == 0 { QuotientIsZero(limit - 1, limit); }
    LinkKeepsLimit(cfg, u, limit, last);
    LinkKeepsOthers(u, limit, last, cfg.defaultLimit, "count");
    if |db| == 0 { assert First(PageUrl(u, limit, 0, cfg.defaultLimit).params, "page") == ""; }
    else { LinkAsksPage(u, limit, last, cfg.defaultLimit); }
  }

  lemma WindowIsFilterable(db: seq<Row>, limit: int, offset: nat)
    requires Filterable(db) && limit > 0
    ensures Filterable(Window(db, limit, offset))
  {}

  // --------------------------------------------------- walks and the caps

  /** The walk visits pages 1 to `last`, and stops. */
  ghost predicate VisitsAll(cfg: Config, db: seq<Row>, url: Url, limit: int, last: int) {
    && last >= 1 && Follow(cfg, db, url, last) == None
    && (forall k :: 0 <= k < last ==> Follow(cfg, db, url, k).Some? && ServesPage(cfg, db, Follow(cfg, db, url, k).value, limit, k + 1, last))
  }

  /** The caps on pages and offsets. */
  predicate WithinCaps(limit: int, last: int) {
    last <= MAX_PAGE && (last - 1) * limit <= MAX_OFFSET
  }

  lemma LeadsThrough(cfg: Config, db: seq<Row>, url: Url, limit: int, last: int)
    requires 0 < limit <= MAX_LIMIT && 1 <= last <= MAX_PAGE && Asks(cfg, url, limit, 1) && Leads(cfg, db, url, limit, last, last)
    ensures VisitsAll(cfg, db, url, limit, last)
  {
    forall k | 0 <= k < last
      ensures Follow(cfg, db, url, k).Some? && ServesPage(cfg, db, Follow(cfg, db, url, k).value, limit, k + 1, last)
    {
      WalkReaches(cfg, db, url, limit, last, last, k);
    }
  }

  /** A walk that visits all its pages asks for each of them, as far as pages
      can be asked for. */
  lemma {:induction false} VisitsReach(cfg: Config, db: seq<Row>, url: Url, limit: int, last: int, k: nat)
    requires 0 < limit <= MAX_LIMIT && Asks(cfg, url, limit, 1) && VisitsAll(cfg, db, url, limit, last)
    requires k < last && k < MAX_PAGE
    ensures Reaches(cfg, db, url, limit, k) && ServesPage(cfg, db, Follow(cfg, db, url, k).value, limit, k + 1, last)
  {
    if k > 0 {
      VisitsReach(cfg, db, url, limit, last, k - 1);
      NextReached(cfg, db, url, limit, last, k);
    }
  }

  function Iterate<T>(step: T -> T, x: T, k: nat): T {
    if k == 0 then x else step(Iterate(step, x, k - 1))
  }

  lemma {:induction false} IterateOn<T>(step: T -> T, x: T, i: nat, j: nat)
    ensures Iterate(step, Iterate(step, x, i), j) == Iterate(step, x, i + j)
  {
    if j > 0 {
      IterateOn(step, x, i, j - 1);
      assert Iterate(step, x, i + j) == step(Iterate(step, x, i + j - 1));
    }
  }

  lemma {:induction false} IterateKeeps<T(!new)>(step: T -> T, x: T, inv: T -> bool, k: nat)
    requires inv(x) && forall y :: inv(y) ==> inv(step(y))
    ensures inv(Iterate(step, x, k))
  {
    if k > 0 { IterateKeeps(step, x, inv, k - 1); }
  }

  lemma {:induction false} FollowIterates(cfg: Config, db: seq<Row>, url: Url, step: Option<Url> -> Option<Url>, k: nat)
    requires forall u :: step(u) == NextOf(cfg, db, u)
    ensures Follow(cfg, db, url, k) == Iterate(step, Some(url), k)
  {
    if k > 0 { FollowIterates(cfg, db, url, step, k - 1); }
  }

  lemma FollowOn(cfg: Config, db: seq<Row>, url: Url, i: nat, j: nat)
    requires Follow(cfg, db, url, i).Some?
    ensures Follow(cfg, db, Follow(cfg, db, url, i).value, j) == Follow(cfg, db, url, i + j)
  {
    var step := u => NextOf(cfg, db, u);
    FollowIterates(cfg, db, url, step, i);
    FollowIterates(cfg, db, url, step, i + j);
    FollowIterates(cfg, db, Follow(cfg, db, url, i).value, step, j);
    IterateOn(step, Some(url), i, j);
  }

  /** Requests for one page that count alike both link on or both do not. */
  lemma SameAnswer(cfg: Config, db: seq<Row>, u: Url, v: Url, limit: int, page: int)
    requires Asks(cfg, u, limit, page) && Asks(cfg, v, limit, page) && CountOf(u) == CountOf(v)
    requires Serve(cfg, db, u).Page? && Serve(cfg, db, u).next.Some?
    ensures limit > 0 && Serve(cfg, db, v).Page? && Serve(cfg, db, v).next == Some(PageUrl(v, limit, page + 1, cfg.defaultLimit))
  {}

  /** The last allowed page, where it links on at all, links to itself, and so
      on without end. */
  lemma CappedPageLoops(cfg: Config, db: seq<Row>, u: Url, limit: int, k: nat)
    requires 0 < limit <= MAX_LIMIT && Asks(cfg, u, limit, MAX_PAGE)
    requires Serve(cfg, db, u).Page? && Serve(cfg, db, u).next.Some?
    ensures
      var v := Follow(cfg, db, u, k);
      v.Some? && Asks(cfg, v.value, limit, MAX_PAGE) && CountOf(v.value) == CountOf(u)
  {
    var stays := (v: Option<Url>) => v.Some? && CountOf(v.value) == CountOf(u) && Asks(cfg, v.value, limit, MAX_PAGE);
    var step := v => NextOf(cfg, db, v);
    forall v | stays(v) ensures stays(step(v)) {
      CappedPageStays(cfg, db, u, v.value, limit);
    }
    IterateKeeps(step, Some(u), stays, k);
    FollowIterates(cfg, db, u, step, k);
  }

  lemma CappedPageStays(cfg: Config, db: seq<Row>, u: Url, v: Url, limit: int)
    requires 0 < limit <= MAX_LIMIT && Asks(cfg, u, limit, MAX_PAGE) && Asks(cfg, v, limit, MAX_PAGE) && CountOf(u) == CountOf(v)
    requires Serve(cfg, db, u).Page? && Serve(cfg, db, u).next.Some?
    ensures
      var w := NextOf(cfg, db, Some(v));
      w.Some? && CountOf(w.value) == CountOf(u) && Asks(cfg, w.value, limit, MAX_PAGE)
  {
    SameAnswer(cfg, db, u, v, limit, MAX_PAGE);
    LinkAsks(cfg, v, limit, MAX_PAGE + 1);
  }

  lemma RefusedBeyondOffset(cfg: Config, db: seq<Row>, u: Url, limit: int, page: int)
    requires limit > 0 && Asks(cfg, u, limit, page) && Serve(cfg, db, u).Page?
    ensures (page - 1) * limit <= MAX_OFFSET
  {}

  /** Whatever is counted: a walk that visits all its pages stays within the
      caps. */
  lemma VisitsWithinCaps(cfg: Config, db: seq<Row>, url: Url, limit: int, last: int)
    requires 0 < limit <= MAX_LIMIT && Asks(cfg, url, limit, 1) && VisitsAll(cfg, db, url, limit, last)
    ensures WithinCaps(limit, last)
  {
    if last <= MAX_PAGE {
      VisitsReach(cfg, db, url, limit, last, last - 1);
      RefusedBeyondOffset(cfg, db, Follow(cfg, db, url, last - 1).value, limit, last);
    } else {
      VisitsLoops(cfg, db, url, limit, last);
    }
  }

  lemma VisitsLoops(cfg: Config, db: seq<Row>, url: Url, limit: int, last: int)
    requires 0 < limit <= MAX_LIMIT && Asks(cfg, url, limit, 1) && last > MAX_PAGE
    ensures !VisitsAll(cfg, db, url, limit, last)
  {
    if VisitsAll(cfg, db, url, limit, last) {
      var k := MAX_PAGE - 1;
      VisitsReach(cfg, db, url, limit, last, k);
      LoopsOn(cfg, db, url, limit, k, last - k);
    }
  }

  lemma LoopsOn(cfg: Config, db: seq<Row>, url: Url, limit: int, k: nat, more: nat)
    requires 0 < limit <= MAX_LIMIT && Follow(cfg, db, url, k).Some? && Asks(cfg, Follow(cfg, db, url, k).value, limit, MAX_PAGE)
    requires Serve(cfg, db, Follow(cfg, db, url, k).value).Page? && Serve(cfg, db, Follow(cfg, db, url, k).value).next.Some?
    ensures Follow(cfg, db, url, k + more).Some?
  {
    CappedPageLoops(cfg, db, Follow(cfg, db, url, k).value, limit, more);
    FollowOn(cfg, db, url, k, more);
  }

  // --------------------------------------------------- the walk with an exact count

  /** The pages up to `reach`, when their offsets are allowed. */
  lemma ExactLeads(cfg: Config, db: seq<Row>, url: Url, limit: int, reach: int)
    requires CountsExactly(cfg) && CountOf(url) && Filterable(db) && 0 < limit <= MAX_LIMIT
    requires reach <= Pages(|db|, limit) && (reach - 1) * limit <= MAX_OFFSET
    ensures Leads(cfg, db, url, limit, reach, Pages(|db|, limit))
  {
    forall page, u | 1 <= page <= reach && Asks(cfg, u, limit, page) && CountOf(u) == CountOf(url)
      ensures ServesPage(cfg, db, u, limit, page, Pages(|db|, limit))
    {
      OffsetGrows(page - 1, reach - 1, limit);
      ExactServes(cfg, db, u, limit, page);
    }
  }

  /** Main result: counting exactly, following next from page 1 visits all pages
      and stops exactly when the caps on pages and offsets are not exceeded. */
  lemma WalkVisitsAll(cfg: Config, db: seq<Row>, url: Url, limit: int, last: int)
    requires CountsExactly(cfg) && CountOf(url) && Filterable(db) && 0 < limit <= MAX_LIMIT && Asks(cfg, url, limit, 1)
    requires last == Pages(|db|, limit)
    ensures VisitsAll(cfg, db, url, limit, last) <==> WithinCaps(limit, last)
  {
    PagesCover(|db|, limit);
    if WithinCaps(limit, last) {
      ExactLeads(cfg, db, url, limit, last);
      LeadsThrough(cfg, db, url, limit, last);
    }
    if VisitsAll(cfg, db, url, limit, last) { VisitsWithinCaps(cfg, db, url, limit, last); }
  }

  /** The visited pages are the whole result, each row once and in order, and
      each reports the full count. */
  lemma WalkReadsAll(cfg: Config, db: seq<Row>, url: Url, limit: int, last: int)
    requires CountsExactly(cfg) && CountOf(url) && Filterable(db) && 0 < limit <= MAX_LIMIT && Asks(cfg, url, limit, 1)
    requires last == Pages(|db|, limit) && WithinCaps(limit, last)
    ensures VisitsAll(cfg, db, url, limit, last) && RowsOfPages(db, limit, last) == db && ItemsOfWalk(cfg, db, url, last) == ShownOf(db)
    ensures forall k :: 0 <= k < last ==> Serve(cfg, db, Follow(cfg, db, url, k).value).total == Some(|db|)
  {
    WalkVisitsAll(cfg, db, url, limit, last);
    PagesCover(|db|, limit);
    forall k | 0 <= k < last ensures Serve(cfg, db, Follow(cfg, db, url, k).value).total == Some(|db|) {
      VisitsReach(cfg, db, url, limit, last, k);
      OffsetGrows(k, last - 1, limit);
      ExactServes(cfg, db, Follow(cfg, db, url, k).value, limit, k + 1);
    }
    PagesCutRows(db, limit, last);
    WalkShows(cfg, db, url, limit, last, last);
  }

  /** Beyond the page cap: from page 1 the walk reaches the last allowed page
      and never leaves it. */
  lemma PageCapLoops(cfg: Config, db: seq<Row>, url: Url, limit: int, k: nat)
    requires CountsExactly(cfg) && CountOf(url) && Filterable(db) && 0 < limit <= MAX_LIMIT && Asks(cfg, url, limit, 1)
    requires Pages(|db|, limit) > MAX_PAGE && (MAX_PAGE - 1) * limit <= MAX_OFFSET
    ensures
      var v := Follow(cfg, db, url, MAX_PAGE - 1 + k);
      v.Some? && Asks(cfg, v.value, limit, MAX_PAGE) && Serve(cfg, db, v.value).Page? && Serve(cfg, db, v.value).next.Some?
  {
    var last := Pages(|db|, limit);
    ExactLeads(cfg, db, url, limit, MAX_PAGE);
    WalkReaches(cfg, db, url, limit, MAX_PAGE, last, MAX_PAGE - 1);
    var u := Follow(cfg, db, url, MAX_PAGE - 1).value;
    CappedPageLoops(cfg, db, u, limit, k);
    FollowOn(cfg, db, url, MAX_PAGE - 1, k);
    SameAnswer(cfg, db, u, Follow(cfg, db, url, MAX_PAGE - 1 + k).value, limit, MAX_PAGE);
  }

  /** Beyond the offset cap: from page 1 the walk reaches the first page whose
      offset is not allowed; it is refused and nothing follows. */
  lemma OffsetCapRefuses(cfg: Config, db: seq<Row>, url: Url, limit: int, k: nat)
    requires CountsExactly(cfg) && CountOf(url) && Filterable(db) && 0 < limit <= MAX_LIMIT && Asks(cfg, url, limit, 1)
    requires k == MAX_OFFSET / limit + 1 && k < Pages(|db|, limit) && k < MAX_PAGE
    ensures Reaches(cfg, db, url, limit, k) && Serve(cfg, db, Follow(cfg, db, url, k).value).Refused?
    ensures Follow(cfg, db, url, k + 1) == None
  {
    FirstRefusedOffset(limit, k);
    ExactLeads(cfg, db, url, limit, k);
    WalkReaches(cfg, db, url, limit, k, Pages(|db|, limit), k);
    var u := Follow(cfg, db, url, k).value;
    if Serve(cfg, db, u).Page? { RefusedBeyondOffset(cfg, db, u, limit, k + 1); }
  }

  lemma FirstRefusedOffset(limit: int, k: nat)
    requires limit > 0 && k == MAX_OFFSET / limit + 1
    ensures (k - 1) * limit <= MAX_OFFSET < k * limit
  {
    assert k * limit == (k - 1) * limit + limit;
  }

  // --------------------------------------------------- with an estimate

  predicate Estimated(cfg: Config, url: Url, estimate: int) {
    cfg.mode.CountEstimate? && cfg.estimate == Some(estimate) && CountOf(url)
  }

  /** Where the walk stops: behind the full pages, or at the last page the
      estimate knows of, if that comes first. */
  function Stop(n: nat, limit: int, estimate: int): (page: int)
    requires limit > 0
    ensures page >= 1
  {
    var known := if LastPage(estimate, limit) < 1 then 1 else LastPage(estimate, limit);
    QuotientIsNatural(n, limit);
    Min(known, n / limit + 1)
  }

  lemma QuotientIsNatural(a: nat, b: int)
    requires b > 0
    ensures a / b >= 0
  {}

  lemma QuotientAtMost(a: nat, b: int, k: int)
    requires b > 0 && k >= 0 && a < (k + 1) * b
    ensures a / b <= k
  {
    var q := a / b;
    if q >= k + 1 { OffsetGrows(k + 1, q, b); }
  }

  /** A page that is not full is the last one counted. */
  lemma ShortPageIsLast(n: nat, limit: int, page: int)
    requires limit > 0 && page == n / limit + 1
    ensures page >= LastPage(n, limit)
  {
    QuotientIsNatural(n, limit);
    LastCovers(n, limit);
    assert (page + 1) * limit == page * limit + limit;
    QuotientAtMost(n + limit - 1, limit, page);
  }

  /** A page of an estimated result links on exactly when it is full and the
      estimate knows of more. */
  lemma EstimatedNext(cfg: Config, db: seq<Row>, u: Url, limit: int, page: int, offset: int, estimate: int)
    requires Estimated(cfg, u, estimate) && Filterable(db) && 0 < limit <= MAX_LIMIT && page >= 1 && Asks(cfg, u, limit, page)
    requires offset == (page - 1) * limit && 0 <= offset <= |db| && offset <= MAX_OFFSET
    ensures
      var r := Serve(cfg, db, u);
      && r.Page? && r.rows == PageRows(db, limit, page)
      && r.next == if page < LastPage(if offset + limit <= |db| then estimate else |db|, limit) then Some(PageUrl(u, limit, page + 1, cfg.defaultLimit)) else None
  {
    ServeIs(cfg, db, u, limit, page, offset);
  }

  lemma EstimatedServes(cfg: Config, db: seq<Row>, u: Url, limit: int, page: int, last: int, estimate: int)
    requires Estimated(cfg, u, estimate) && Filterable(db) && 0 < limit <= MAX_LIMIT && Asks(cfg, u, limit, page)
    requires last == Stop(|db|, limit, estimate) && 1 <= page <= last && (last - 1) * limit <= MAX_OFFSET
    ensures ServesPage(cfg, db, u, limit, page, last)
  {
    var offset := FullPages(|db|, limit, page);
    OffsetGrows(page - 1, last - 1, limit);
    EstimatedNext(cfg, db, u, limit, page, offset, estimate);
    if page == |db| / limit + 1 { ShortPageIsLast(|db|, limit, page); }
  }

  lemma EstimatedLeads(cfg: Config, db: seq<Row>, url: Url, limit: int, last: int, estimate: int)
    requires Estimated(cfg, url, estimate) && Filterable(db) && 0 < limit <= MAX_LIMIT
    requires last == Stop(|db|, limit, estimate) && WithinCaps(limit, last)
    ensures Leads(cfg, db, url, limit, last, last)
  {
    forall page, u | 1 <= page <= last && Asks(cfg, u, limit, page) && CountOf(u) == CountOf(url)
      ensures ServesPage(cfg, db, u, limit, page, last)
    {
      EstimatedServes(cfg, db, u, limit, page, last, estimate);
    }
  }

  /** Main result: an estimate drives the walk. From page 1 it visits the pages
      up to Stop, and stops, exactly when the caps allow them; these are all rows
      exactly when the estimate is not too low by a page. */
  lemma EstimatedWalk(cfg: Config, db: seq<Row>, url: Url, limit: int, last: int, estimate: int)
    requires Estimated(cfg, url, estimate) && Filterable(db) && 0 < limit <= MAX_LIMIT && Asks(cfg, url, limit, 1)
    requires last == Stop(|db|, limit, estimate)
    ensures VisitsAll(cfg, db, url, limit, last) <==> WithinCaps(limit, last)
    ensures RowsOfPages(db, limit, last) == db <==> Pages(|db|, limit) == 1 || Pages(|db|, limit) <= LastPage(estimate, limit)
    ensures VisitsAll(cfg, db, url, limit, last) ==> ItemsOfWalk(cfg, db, url, last) == ShownOf(RowsOfPages(db, limit, last))
  {
    WalkShowsPages(cfg, db, url, limit, last);
    EstimatedVisits(cfg, db, url, limit, last, estimate);
    EstimatedRows(db, limit, last, estimate);
  }

  lemma EstimatedVisits(cfg: Config, db: seq<Row>, url: Url, limit: int, last: int, estimate: int)
    requires Estimated(cfg, url, estimate) && Filterable(db) && 0 < limit <= MAX_LIMIT && Asks(cfg, url, limit, 1)
    requires last == Stop(|db|, limit, estimate)
    ensures VisitsAll(cfg, db, url, limit, last) <==> WithinCaps(limit, last)
  {
    if WithinCaps(limit, last) {
      EstimatedLeads(cfg, db, url, limit, last, estimate);
      LeadsThrough(cfg, db, url, limit, last);
    }
    if VisitsAll(cfg, db, url, limit, last) { VisitsWithinCaps(cfg, db, url, limit, last); }
  }

  /** Which pages hold all rows. */
  lemma AllRowsUpTo(db: seq<Row>, limit: int, k: nat)
    requires limit > 0 && k >= 1
    ensures RowsOfPages(db, limit, k) == db <==> Pages(|db|, limit) <= k
  {
    PagesCutRows(db, limit, k);
    PagesCover(|db|, limit);
    var pages := Pages(|db|, limit);
    if pages <= k {
      OffsetGrows(pages, k, limit);
    } else {
      OffsetGrows(k, pages - 1, limit);
      assert |db| > 0 && k * limit < |db|;
    }
  }

  lemma PagesAreFew(n: nat, limit: int)
    requires limit > 0
    ensures Pages(n, limit) <= n / limit + 1
  {
    QuotientIsNatural(n, limit);
    if n > 0 { ShortPageIsLast(n, limit, n / limit + 1); }
  }

  lemma EstimatedRows(db: seq<Row>, limit: int, last: int, estimate: int)
    requires limit > 0 && last == Stop(|db|, limit, estimate)
    ensures RowsOfPages(db, limit, last) == db <==> Pages(|db|, limit) == 1 || Pages(|db|, limit) <= LastPage(estimate, limit)
  {
    AllRowsUpTo(db, limit, last);
    PagesCover(|db|, limit);
    PagesAreFew(|db|, limit);
  }

  /** An estimate that is too low ends the walk at a full page: two rows, one a
      page, of which the estimate knows one. */
  lemma LowEstimateEndsWalk(cfg: Config, url: Url) returns (db: seq<Row>)
    requires Estimated(cfg, url, 1) && Asks(cfg, url, 1, 1)
    ensures |db| == 2 && Filterable(db) && AllReadable(db)
    ensures VisitsAll(cfg, db, url, 1, 1) && RowsOfPages(db, 1, 1) != db
  {
    db := [Row(true, Some("first")), Row(true, Some("second"))];
    EstimatedWalk(cfg, db, url, 1, 1, 1);
  }

  // --------------------------------------------------- without a count

  predicate Uncounted(cfg: Config, url: Url) {
    cfg.mode.CountNone? || !CountOf(url)
  }

  lemma LastCovers(n: nat, limit: int)
    requires limit > 0
    ensures n <= (n / limit + 1) * limit
  {
    assert (n / limit + 1) * limit == n / limit * limit + limit;
  }

  /** A page is full exactly before the last. */
  lemma FullPages(n: nat, limit: int, page: int) returns (offset: int)
    requires limit > 0 && 1 <= page <= n / limit + 1
    ensures offset == (page - 1) * limit && 0 <= offset <= n / limit * limit <= n
    ensures offset + limit <= n <==> page <= n / limit
  {
    var q := n / limit;
    offset := (page - 1) * limit;
    OffsetGrows(page - 1, q, limit);
    assert offset + limit == page * limit;
    if page <= q { OffsetGrows(page, q, limit); }
  }

  /** Without a count a page links on exactly when it is full and nothing of it
      was dropped. */
  lemma UncountedNext(cfg: Config, db: seq<Row>, u: Url, limit: int, page: int, offset: int)
    requires Uncounted(cfg, u) && Filterable(db) && 0 < limit <= MAX_LIMIT && page >= 1 && Asks(cfg, u, limit, page)
    requires offset == (page - 1) * limit && 0 <= offset <= |db| && offset <= MAX_OFFSET
    ensures
      var r := Serve(cfg, db, u);
      && r.Page? && r.rows == PageRows(db, limit, page)
      && r.next == if offset + limit <= |db| && AllReadable(r.rows) then Some(PageUrl(u, limit, page + 1, cfg.defaultLimit)) else None
  {
    ServeIs(cfg, db, u, limit, page, offset);
    WindowIsFilterable(db, limit, offset);
    ScanSucceeds(Window(db, limit, offset));
  }

  /** The rows of all pages but the last. */
  predicate FullPagesReadable(db: seq<Row>, limit: int)
    requires limit > 0
  {
    forall i :: 0 <= i < |db| / limit * limit && i < |db| ==> db[i].readable
  }

  lemma UncountedServes(cfg: Config, db: seq<Row>, u: Url, limit: int, page: int, last: int)
    requires Uncounted(cfg, u) && Filterable(db) && 0 < limit <= MAX_LIMIT && FullPagesReadable(db, limit)
    requires Asks(cfg, u, limit, page) && last == |db| / limit + 1 && 1 <= page <= last && (last - 1) * limit <= MAX_OFFSET
    ensures ServesPage(cfg, db, u, limit, page, last)
  {
    var offset := FullPages(|db|, limit, page);
    UncountedNext(cfg, db, u, limit, page, offset);
    if page < last { FullPageReadable(db, limit, page, offset); }
  }

  lemma FullPageReadable(db: seq<Row>, limit: int, page: int, offset: int)
    requires limit > 0 && FullPagesReadable(db, limit) && 1 <= page <= |db| / limit && offset == (page - 1) * limit && offset >= 0
    ensures AllReadable(Window(db, limit, offset))
  {
    var whole := FullPages(|db|, limit, page + 1);
    assert whole == offset + limit;
    AllBefore(db, |db| / limit * limit, offset, whole);
  }

  lemma AllBefore(db: seq<Row>, bound: int, i: int, j: int)
    requires 0 <= i <= j <= bound && j <= |db| && forall k :: 0 <= k < bound && k < |db| ==> db[k].readable
    ensures AllReadable(db[i..j])
  {}

  /** Main result: without a count a full page is taken for evidence of more.
      With one empty page at the end if the last page was full, the walk visits
      all pages exactly when the caps are not exceeded and the caller may read
      every row of the full pages: an unreadable row ends the walk early. */
  lemma UncountedWalkVisitsAll(cfg: Config, db: seq<Row>, url: Url, limit: int, last: int)
    requires Uncounted(cfg, url) && Filterable(db) && 0 < limit <= MAX_LIMIT && Asks(cfg, url, limit, 1)
    requires last == |db| / limit + 1
    ensures VisitsAll(cfg, db, url, limit, last) <==> WithinCaps(limit, last) && FullPagesReadable(db, limit)
    ensures VisitsAll(cfg, db, url, limit, last) ==> RowsOfPages(db, limit, last) == db && ItemsOfWalk(cfg, db, url, last) == ShownOf(db)
  {
    UncountedVisits(cfg, db, url, limit, last);
    VisitedAreReadable(cfg, db, url, limit, last);
    UncountedRows(db, limit, last);
    WalkShowsPages(cfg, db, url, limit, last);
  }

  lemma UncountedVisits(cfg: Config, db: seq<Row>, url: Url, limit: int, last: int)
    requires Uncounted(cfg, url) && Filterable(db) && 0 < limit <= MAX_LIMIT && Asks(cfg, url, limit, 1)
    requires last == |db| / limit + 1
    ensures WithinCaps(limit, last) && FullPagesReadable(db, limit) ==> VisitsAll(cfg, db, url, limit, last)
  {
    if WithinCaps(limit, last) && FullPagesReadable(db, limit) {
      UncountedLeads(cfg, db, url, limit, last);
      LeadsThrough(cfg, db, url, limit, last);
    }
  }

  lemma UncountedRows(db: seq<Row>, limit: int, last: int)
    requires limit > 0 && last == |db| / limit + 1
    ensures RowsOfPages(db, limit, last) == db
  {
    PagesCutRows(db, limit, last);
    LastCovers(|db|, limit);
  }

  lemma UncountedLeads(cfg: Config, db: seq<Row>, url: Url, limit: int, last: int)
    requires Uncounted(cfg, url) && Filterable(db) && 0 < limit <= MAX_LIMIT && FullPagesReadable(db, limit)
    requires last == |db| / limit + 1 && WithinCaps(limit, last)
    ensures Leads(cfg, db, url, limit, last, last)
  {
    forall page, u | 1 <= page <= last && Asks(cfg, u, limit, page) && CountOf(u) == CountOf(url)
      ensures ServesPage(cfg, db, u, limit, page, last)
    {
      UncountedServes(cfg, db, u, limit, page, last);
    }
  }

  lemma VisitedAreReadable(cfg: Config, db: seq<Row>, url: Url, limit: int, last: int)
    requires Uncounted(cfg, url) && Filterable(db) && 0 < limit <= MAX_LIMIT && Asks(cfg, url, limit, 1)
    requires last == |db| / limit + 1
    ensures VisitsAll(cfg, db, url, limit, last) ==> WithinCaps(limit, last) && FullPagesReadable(db, limit)
  {
    if VisitsAll(cfg, db, url, limit, last) {
      VisitsWithinCaps(cfg, db, url, limit, last);
      forall i | 0 <= i < |db| / limit * limit && i < |db| ensures db[i].readable {
        var k, offset := PageOfRow(|db|, limit, i);
        VisitedPageIsReadable(cfg, db, url, limit, last, k, offset);
        assert Window(db, limit, offset)[i - offset] == db[i];
      }
    }
  }

  lemma VisitedPageIsReadable(cfg: Config, db: seq<Row>, url: Url, limit: int, last: int, k: nat, offset: nat)
    requires Uncounted(cfg, url) && Filterable(db) && 0 < limit <= MAX_LIMIT && Asks(cfg, url, limit, 1)
    requires WithinCaps(limit, last) && VisitsAll(cfg, db, url, limit, last)
    requires k < last - 1 && offset == k * limit && offset <= |db|
    ensures AllReadable(Window(db, limit, offset))
  {
    OffsetGrows(k, last - 1, limit);
    VisitsReach(cfg, db, url, limit, last, k);
    UncountedNext(cfg, db, Follow(cfg, db, url, k).value, limit, k + 1, offset);
  }

  /** The full page a row stands on. */
  lemma PageOfRow(n: nat, limit: int, i: nat) returns (k: nat, offset: int)
    requires limit > 0 && i < n / limit * limit
    ensures k < n / limit && offset == k * limit && 0 <= offset <= i < offset + limit <= n
  {
    k := i / limit;
    offset := k * limit;
    assert offset <= i < offset + limit;
    var q := n / limit;
    if k >= q { OffsetGrows(q, k, limit); }
    OffsetGrows(k + 1, q, limit);
    assert (k + 1) * limit == offset + limit;
  }

  /** The condition is needed: one unreadable row on a full page, and the rows
      behind it are never reached. */
  lemma UnreadableRowEndsWalk(cfg: Config, url: Url) returns (db: seq<Row>)
    requires Uncounted(cfg, url) && Asks(cfg, url, 1, 1)
    ensures |db| == 2 && Filterable(db) && !db[0].readable && db[1].readable
    ensures Follow(cfg, db, url, 1) == None && !VisitsAll(cfg, db, url, 1, 3)
  {
    db := [Row(false, None), Row(true, Some("shown"))];
    UncountedNext(cfg, db, url, 1, 1, 0);
    assert !AllReadable(PageRows(db, 1, 1)) by { assert PageRows(db, 1, 1)[0] == db[0]; }
    assert Follow(cfg, db, url, 0) == Some(url);
  }
}
