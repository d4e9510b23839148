/**
 Paged reads. A client that follows nextCursor (or steps the offset by the page size) from the first
 page until hasMore is false has read the whole list, in order, each item once.
 (The list is the filtered and ordered query result, and does not change between the pages.)
 */
module Pagination {
  import opened Decimals
  import opened Wrappers

  const DEFAULT_PAGE_SIZE := 50
  const MAX_PAGE_SIZE := 100

  /** A limit or skip as the query string carries it. */
  datatype Raw = Absent | Number(n: int) | Text(s: string)

  datatype Query = Query(limit: Raw, skip: Raw, cursor: Option<string>)

  datatype Params = Params(limit: nat, skip: nat, cursor: Option<string>)

  function RawValue(raw: Raw): Option<int> {
    match raw
    case Absent => None
    case Number(n) => Some(n)
    case Text(s) => ParseInt(s)
  }

  function ParseLimit(raw: Raw): nat {
    var n := RawValue(raw).GetOr(0);
    if n <= 0 then DEFAULT_PAGE_SIZE else Min(n, MAX_PAGE_SIZE)
  }

  function Parse(query: Query): Params {
    var cursor := if query.cursor == Some("") then None else query.cursor;
    Params(ParseLimit(query.limit), Max(0, RawValue(query.skip).GetOr(0)), cursor)
  }

  datatype Item = Item(id: string, content: string)

  datatype Page = Page(data: seq<Item>, limit: nat, skip: nat, nextCursor: Option<string>, hasMore: bool,
                       totalCount: nat)

  function SafeLimit(limit: int): nat {
    Min(Max(if limit == 0 then DEFAULT_PAGE_SIZE else limit, 1), MAX_PAGE_SIZE)
  }

  function Build(items: seq<Item>, limit: int, totalCount: nat, skip: nat): Page {
    var safeLimit := SafeLimit(limit);
    if |items| > safeLimit then
      var sliced := items[..safeLimit];
      Page(sliced, safeLimit, skip, Some(sliced[|sliced| - 1].id), true, totalCount)
    else
      Page(items, safeLimit, skip, None, false, totalCount)
  }

  /** The position of the item with the given id; past the end if there is none. */
  function Find(list: seq<Item>, id: string): nat {
    if list == [] || list[0].id == id then 0 else 1 + Find(list[1..], id)
  }

  function Slice(list: seq<Item>, from: nat, count: nat): seq<Item> {
    if from >= |list| then [] else list[from..Min(|list|, from + count)]
  }

  /** The database's page query: from the cursor's item if there is a cursor, then skip and take. */
  function FindMany(list: seq<Item>, cursor: Option<string>, skip: nat, take: nat): seq<Item> {
    var from := match cursor case Some(id) => Find(list, id) case None => 0;
    Slice(list, from + skip, take)
  }

  /** getExecutions and getExecutionLogs: one more item than asked for, and past the cursor if there is one. */
  function GetPage(list: seq<Item>, query: Query): Page {
    var Params(limit, skip, cursor) := Parse(query);
    Build(FindMany(list, cursor, if cursor.Some? then 1 else skip, limit + 1), limit, |list|, skip)
  }

  /** getDlqJobs, over jobs already fetched and filtered. */
  function GetDlqPage(list: seq<Item>, query: Query): Page {
    var Params(limit, skip, _) := Parse(query);
    Build(Slice(list, skip, limit + 1), limit, |list|, skip)
  }

  // ----- one page

  predicate IdsDistinct(list: seq<Item>) {
    && (forall i :: 0 <= i < |list| ==> list[i].id != "")
    && (forall i, j :: 0 <= i < j < |list| ==> list[i].id != list[j].id)
  }

  /** Both clamps agree: what parsing lets through, building leaves alone; no limit at all builds a page of 50. */
  lemma ClampsAgree(raw: Raw)
    ensures 1 <= ParseLimit(raw) <= MAX_PAGE_SIZE && SafeLimit(ParseLimit(raw)) == ParseLimit(raw)
    ensures forall n :: SafeLimit(n) == if n > 100 then 100 else if n >= 1 then n else if n == 0 then 50 else 1
  {
  }

  /** A whole number as the query string may carry it. */
  predicate IsNumber(raw: Raw, n: int) {
    raw == Number(n) || raw == Text(PrintInt(n))
  }

  /** Nothing a number can be read from. */
  predicate IsNoNumber(raw: Raw) {
    raw.Absent? || (raw.Text? && ParseInt(raw.s).None?)
  }

  /**
   The parameters are honoured as far as they make sense: a limit from 1 to 100 as it is, a higher one as 100,
   any other as 50; a skip from 0 on as it is, any other as 0; an empty cursor as none.
   */
  lemma ParametersAreHonoured(query: Query, n: int)
    ensures IsNumber(query.limit, n) ==> Parse(query).limit == if n > 100 then 100 else if n >= 1 then n else 50
    ensures IsNoNumber(query.limit) ==> Parse(query).limit == 50
    ensures IsNumber(query.skip, n) ==> Parse(query).skip == if n >= 0 then n else 0
    ensures IsNoNumber(query.skip) ==> Parse(query).skip == 0
    ensures Parse(query).cursor == if query.cursor == Some("") then None else query.cursor
  {
    ParsePrinted(n);
  }

  lemma {:induction false} FindFindsPosition(list: seq<Item>, i: nat)
    requires IdsDistinct(list) && i < |list|
    ensures Find(list, list[i].id) == i
  {
    if i == 0 {
    } else {
      assert list[0].id != list[i].id;
      assert list[1..][i - 1] == list[i];
      FindFindsPosition(list[1..], i - 1);
    }
  }

  /** Where the page of a query starts. */
  function Start(list: seq<Item>, query: Query): nat {
    var p := Parse(query);
    match p.cursor case Some(id) => Find(list, id) + 1 case None => p.skip
  }

  /** The probe item beyond the page is never shown; it is there exactly when hasMore is. */
  predicate IsPageFrom(page: Page, list: seq<Item>, start: nat, limit: nat)
    requires limit >= 1
  {
    && page.data == Slice(list, start, limit)
    && page.limit == limit && page.totalCount == |list|
    && (page.hasMore <==> start + limit < |list|)
    && (page.hasMore ==> page.nextCursor == Some(list[start + limit - 1].id))
    && (!page.hasMore ==> page.nextCursor == None)
  }

  lemma BuildMakesPage(list: seq<Item>, start: nat, raw: Raw, skip: nat)
    ensures var limit := ParseLimit(raw);
            IsPageFrom(Build(Slice(list, start, limit + 1), limit, |list|, skip), list, start, limit)
  {
    var limit := ParseLimit(raw);
    ClampsAgree(raw);
    if start + limit < |list| {
      assert Slice(list, start, limit + 1)[..limit] == Slice(list, start, limit);
    } else {
      assert Slice(list, start, limit + 1) == Slice(list, start, limit);
    }
  }

  lemma PagesStartWhereAsked(list: seq<Item>, query: Query)
    ensures IsPageFrom(GetPage(list, query), list, Start(list, query), ParseLimit(query.limit))
  {
    BuildMakesPage(list, Start(list, query), query.limit, Parse(query).skip);
  }

  /** The next page starts right after the last item of this one. */
  lemma NextPageStartsAfterThis(list: seq<Item>, query: Query)
    requires IdsDistinct(list) && GetPage(list, query).hasMore
    ensures var next := query.(cursor := GetPage(list, query).nextCursor);
            Start(list, next) == Start(list, query) + ParseLimit(query.limit) < |list|
  {
    PagesStartWhereAsked(list, query);
    FindFindsPosition(list, Start(list, query) + ParseLimit(query.limit) - 1);
  }

  // ----- the cursor walk

  /** The pages a client reads from a query on, following nextCursor while there is more. */
  function Walk(list: seq<Item>, query: Query): (pages: seq<Page>)
    requires IdsDistinct(list)
    ensures |pages| > 0
    decreases |list| - Start(list, query)
  {
    var page := GetPage(list, query);
    if page.hasMore then
      NextPageStartsAfterThis(list, query);
      [page] + Walk(list, query.(cursor := page.nextCursor))
    else
      [page]
  }

  function Data(pages: seq<Page>): seq<Item> {
    if pages == [] then [] else pages[0].data + Data(pages[1..])
  }

  lemma DataOfCons(page: Page, rest: seq<Page>)
    ensures Data([page] + rest) == page.data + Data(rest)
  {
  }

  /** Only the last page says there is no more. */
  predicate EndsOnce(pages: seq<Page>) {
    forall i :: 0 <= i < |pages| ==> (pages[i].hasMore <==> i < |pages| - 1)
  }

  lemma EndsOnceCons(page: Page, rest: seq<Page>)
    requires rest != [] && page.hasMore && EndsOnce(rest)
    ensures EndsOnce([page] + rest)
  {
  }

  /** A page and what comes after it make up what was to be read. */
  lemma SliceSplits(list: seq<Item>, start: nat, limit: nat)
    ensures Slice(list, start, |list|) == Slice(list, start, limit) + Slice(list, start + limit, |list|)
  {
  }

  /** One page and a walk that reads what comes after it. */
  lemma ReadsOn(list: seq<Item>, page: Page, start: nat, rest: seq<Page>)
    requires page.limit >= 1 && IsPageFrom(page, list, start, page.limit)
    requires if page.hasMore then Data(rest) == Slice(list, start + page.limit, |list|) else rest == []
    ensures Data([page] + rest) == Slice(list, start, |list|)
  {
    DataOfCons(page, rest);
    SliceSplits(list, start, page.limit);
  }

  lemma {:induction false} WalkReadsTheRest(list: seq<Item>, query: Query)
    requires IdsDistinct(list)
    ensures Data(Walk(list, query)) == Slice(list, Start(list, query), |list|)
    ensures EndsOnce(Walk(list, query))
    decreases |list| - Start(list, query)
  {
    var page, start := GetPage(list, query), Start(list, query);
    PagesStartWhereAsked(list, query);
    if page.hasMore {
      var next := query.(cursor := page.nextCursor);
      NextPageStartsAfterThis(list, query);
      WalkReadsTheRest(list, next);
      ReadsOn(list, page, start, Walk(list, next));
      EndsOnceCons(page, Walk(list, next));
    } else {
      ReadsOn(list, page, start, []);
      assert [page] + [] == [page];
    }
  }

  /** From the first page on, for every limit a client may send: the walk ends, and has read exactly the list. */
  lemma WalkRebuildsList(list: seq<Item>, limit: Raw)
    requires IdsDistinct(list)
    ensures var pages := Walk(list, Query(limit, Absent, None)); Data(pages) == list && EndsOnce(pages)
  {
    var first := Query(limit, Absent, None);
    WalkReadsTheRest(list, first);
    assert Slice(list, 0, |list|) == list;
  }

  // ----- the dead-letter pages

  predicate IsLimit(limit: nat) {
    1 <= limit <= MAX_PAGE_SIZE
  }

  function OffsetPage(list: seq<Item>, limit: nat, skip: nat): (page: Page)
    requires IsLimit(limit)
    ensures IsPageFrom(page, list, skip, limit)
  {
    BuildMakesPage(list, skip, Number(limit), skip);
    Build(Slice(list, skip, limit + 1), limit, |list|, skip)
  }

  /** Whatever cursor comes with it, the offset and the clamped limit decide a dead-letter page. */
  lemma DlqPagesAreOffsetPages(list: seq<Item>, limit: Raw, skip: nat, cursor: Option<string>)
    ensures IsLimit(ParseLimit(limit))
    ensures GetDlqPage(list, Query(limit, Number(skip), cursor)) == OffsetPage(list, ParseLimit(limit), skip)
  {
  }

  /**
   The pages a client reads by stepping the offset, which is what dead-letter pages honour: all that is left
   of the list.
   */
  function OffsetWalk(list: seq<Item>, limit: nat, skip: nat): (pages: seq<Page>)
    requires IsLimit(limit)
    ensures Data(pages) == Slice(list, skip, |list|)
    decreases |list| - skip
  {
    var page := OffsetPage(list, limit, skip);
    var rest := if page.hasMore then OffsetWalk(list, limit, skip + limit) else [];
    ReadsOn(list, page, skip, rest);
    [page] + rest
  }

  /** The page after following nextCursor n times through the dead-letter pages. */
  function DlqPageAfter(list: seq<Item>, limit: Raw, n: nat): Page {
    var cursor := if n == 0 then None else DlqPageAfter(list, limit, n - 1).nextCursor;
    GetDlqPage(list, Query(limit, Absent, cursor))
  }

  /**
   Dead-letter pages hand out a nextCursor and ignore it: following it yields the first page again
   and again, so the walk ends exactly when the list fits on one page.
   */
  lemma {:induction false} DlqCursorGoesNowhere(list: seq<Item>, limit: Raw, n: nat)
    ensures DlqPageAfter(list, limit, n) == DlqPageAfter(list, limit, 0)
    ensures DlqPageAfter(list, limit, n).hasMore <==> |list| > ParseLimit(limit)
  {
    BuildMakesPage(list, 0, limit, 0);
    if n == 0 {
    } else {
      DlqCursorGoesNowhere(list, limit, n - 1);
    }
  }
}
