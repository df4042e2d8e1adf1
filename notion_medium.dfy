/** `src/collectors/notion_medium.py`: querying the Medium Daily Digest database
    in Notion and turning its pages into collected items. The date filter sent
    with the query, the keyword filter, the display title and the content. The
    query itself and the reading of page properties belong to the Notion base
    collector; its pages arrive here already read, as strings. */
module NotionMedium {
  import opened Common
  import opened Json
  import opened Models
  import opened DateTimes
  import opened Collecting

  const DbIdName: string := "NOTION_MEDIUM_DB_ID"
  const MissingDbId: string := "NOTION_MEDIUM_DB_IDが未設定です。"

  /** The constructor's check: the database id from the argument, else from the
      environment; an empty id is refused. */
  function Configure(dbId: Option<string>, env: map<string, string>): (r: Result<string, string>)
    ensures r.Ok? <==> ArgOrEnv(dbId, env, DbIdName) != []
    ensures r.Ok? ==> r.value == ArgOrEnv(dbId, env, DbIdName)
    ensures r.Err? ==> r.error == MissingDbId
  {
    var id := ArgOrEnv(dbId, env, DbIdName);
    if id == [] then Err(MissingDbId) else Ok(id)
  }

  // ---------------------------------------------------------------------------
  // The date filter
  // ---------------------------------------------------------------------------

  /** `v if isinstance(v, str) and v`: a keyword argument that is a non-empty string. */
  function NonEmptyStr(arg: Option<Json>): (r: Option<string>)
    ensures r.Some? <==> arg.Some? && arg.value.JStr? && arg.value.s != []
    ensures r.Some? ==> r.value == arg.value.s
  {
    if arg.Some? && arg.value.JStr? && arg.value.s != [] then Some(arg.value.s) else None
  }

  /** The first day asked for: `date_from` when given, else the date `days` days
      before now. `days` is read only when `date_from` is missing; `None` is the
      `ValueError` of an unreadable one. */
  function StartDate(dateFrom: Option<Json>, days: Option<Json>, daysAgo: int -> DateTime): (r: Option<string>)
    ensures NonEmptyStr(dateFrom).Some? ==> r == NonEmptyStr(dateFrom)
    ensures NonEmptyStr(dateFrom).None? && DaysArg(days).Some? ==> r == Some(IsoDate(daysAgo(DaysArg(days).value)))
    ensures NonEmptyStr(dateFrom).None? && DaysArg(days).None? ==> r.None?
  {
    if NonEmptyStr(dateFrom).Some? then NonEmptyStr(dateFrom)
    else match DaysArg(days)
      case None => None
      case Some(d) => Some(IsoDate(daysAgo(d)))
  }

  /** `{"property": "Date", "date": {op: date}}`. */
  function DateClause(op: string, date: string): Json {
    JObj(map["property" := JStr("Date"), "date" := JObj(map[op := JStr(date)])])
  }

  /** The filter object: the `on_or_after` clause alone, or both clauses under
      `and` when a non-empty `date_to` is given. */
  function DateFilter(start: string, dateTo: Option<Json>): Json {
    match NonEmptyStr(dateTo)
    case Some(end) => JObj(map["and" := JList([DateClause("on_or_after", start), DateClause("before", end)])])
    case None => DateClause("on_or_after", start)
  }

  /** The bound `op` that one clause sets on the Date property, if any. */
  function ClauseBound(clause: Json, op: string): Option<string> {
    if clause.JObj? && GetOr(clause.fields, "property", JNull) == JStr("Date") then
      var date := GetOr(clause.fields, "date", JNull);
      if date.JObj? && op in date.fields && date.fields[op].JStr? then Some(date.fields[op].s) else None
    else None
  }

  /** The first of a list of clauses that sets `op`. */
  function FirstBound(clauses: seq<Json>, op: string): Option<string> {
    if clauses == [] then None
    else if ClauseBound(clauses[0], op).Some? then ClauseBound(clauses[0], op)
    else FirstBound(clauses[1..], op)
  }

  /** The bound `op` a filter object sets, as Notion reads it: from the clauses
      of an `and`, or from the single clause. */
  function Bound(filter: Json, op: string): Option<string> {
    if filter.JObj? && "and" in filter.fields && filter.fields["and"].JList? then
      FirstBound(filter.fields["and"].items, op)
    else ClauseBound(filter, op)
  }

  /** The filter asks for pages dated on or after the start, and before
      `date_to` exactly when a non-empty `date_to` is given. */
  lemma DateFilterBounds(start: string, dateTo: Option<Json>)
    ensures Bound(DateFilter(start, dateTo), "on_or_after") == Some(start)
    ensures Bound(DateFilter(start, dateTo), "before") == NonEmptyStr(dateTo)
  {
    var f := DateFilter(start, dateTo);
    match NonEmptyStr(dateTo)
    case Some(end) =>
      var clauses := [DateClause("on_or_after", start), DateClause("before", end)];
      assert f.fields["and"].items == clauses;
      assert ClauseBound(clauses[0], "on_or_after") == Some(start);
      assert ClauseBound(clauses[0], "before").None?;
      assert clauses[1..] == [clauses[1]];
      assert ClauseBound(clauses[1], "before") == Some(end);
      assert FirstBound(clauses[1..], "before") == Some(end);
    case None =>
      assert ClauseBound(f, "before").None?;
  }

  /** Without `date_to` the filter is one clause, with no `and` and no `before`
      anywhere in it; with one, it is an `and` of exactly two clauses. */
  lemma DateFilterShape(start: string, dateTo: Option<Json>)
    ensures var f := DateFilter(start, dateTo);
      && f.JObj?
      && (NonEmptyStr(dateTo).None? ==> "and" !in f.fields && f.fields["date"] == JObj(map["on_or_after" := JStr(start)]))
      && (NonEmptyStr(dateTo).Some? ==> f.fields.Keys == {"and"} && f.fields["and"].JList? && |f.fields["and"].items| == 2)
  {
  }

  /** The query `collect` sends: database, filter, and newest first. */
  datatype Query = Query(databaseId: string, filter: Json, sorts: Json)

  const NewestFirst: Json := JList([JObj(map["property" := JStr("Date"), "direction" := JStr("descending")])])

  // ---------------------------------------------------------------------------
  // Pages
  // ---------------------------------------------------------------------------

  /** One page of the database, its properties already read as strings ("" when
      absent). */
  datatype MediumPage = MediumPage(title: string, japaneseTitle: string, author: string,
                                   summary: string, url: string, date: string)

  /** `japanese_title or title or "Untitled"`. */
  function DisplayTitle(p: MediumPage): (r: string)
    ensures r != []
    ensures p.japaneseTitle != [] ==> r == p.japaneseTitle
    ensures p.japaneseTitle == [] && p.title != [] ==> r == p.title
    ensures p.japaneseTitle == [] && p.title == [] ==> r == "Untitled"
  {
    if p.japaneseTitle != [] then p.japaneseTitle else if p.title != [] then p.title else "Untitled"
  }

  function Searchable(p: MediumPage): string {
    p.title + " " + p.japaneseTitle + " " + p.summary + " " + p.author
  }

  function ContentParts(p: MediumPage): seq<string> {
    (if p.summary != [] then [p.summary] else []) + (if p.author != [] then ["Author: " + p.author] else [])
  }

  function Record(p: MediumPage, now: DateTime): CollectedData {
    CollectedData("notion_medium", DisplayTitle(p), OrNone(p.url), Join("\n", ContentParts(p)), now, OrNone(p.date))
  }

  function Keep(query: string): MediumPage -> bool {
    p => MatchesQuery(query, Searchable(p))
  }

  function ToRecord(now: DateTime): MediumPage -> CollectedData {
    p => Record(p, now)
  }

  /** The items for the pages the query returned: those mentioning the keyword,
      converted, in the order Notion sent them. */
  function Articles(query: string, pages: seq<MediumPage>, now: DateTime): seq<CollectedData> {
    MapSeq(ToRecord(now), Filter(Keep(query), pages))
  }

  /** Why `collect` fails: an unreadable `days`, or a `CollectionError` from the
      database query (an HTTP error is turned into one with its own text). */
  datatype Failure = InvalidDays | QueryFailed(message: string)

  /** The start date as `collect` works it out. */
  method ComputeStart(dateFrom: Option<Json>, days: Option<Json>, daysAgo: int -> DateTime)
    returns (r: Option<string>)
    ensures r == StartDate(dateFrom, days, daysAgo)
  {
    if dateFrom.Some? && dateFrom.value.JStr? && dateFrom.value.s != [] {
      return Some(dateFrom.value.s);
    }
    var d := DaysArg(days);
    if d.None? {
      return None;
    }
    return Some(IsoDate(daysAgo(d.value)));
  }

  /** One page as an item, the content built part by part. */
  method Convert(p: MediumPage, now: DateTime) returns (item: CollectedData)
    ensures item == Record(p, now)
  {
    var parts: seq<string> := [];
    if p.summary != [] {
      parts := parts + [p.summary];
    }
    if p.author != [] {
      parts := parts + ["Author: " + p.author];
    }
    return CollectedData("notion_medium", DisplayTitle(p), OrNone(p.url), Join("\n", parts), now, OrNone(p.date));
  }

  /** The loop over the pages the query returned. */
  method CollectPages(query: string, pages: seq<MediumPage>, now: DateTime) returns (collected: seq<CollectedData>)
    ensures collected == Articles(query, pages, now)
  {
    collected := [];
    var i := 0;
    while i < |pages|
      invariant 0 <= i <= |pages|
      invariant collected == Articles(query, pages[..i], now)
    {
      var p := pages[i];
      assert pages[..i + 1] == pages[..i] + [p];
      FilterSnoc(Keep(query), pages[..i], p);
      ghost var kept := Filter(Keep(query), pages[..i]);
      if query == [] || Contains(Lower(p.title + " " + p.japaneseTitle + " " + p.summary + " " + p.author), Lower(query)) {
        assert Keep(query)(p);
        var item := Convert(p, now);
        MapSeqSnoc(ToRecord(now), kept, p);
        collected := collected + [item];
      } else {
        assert !Keep(query)(p);
      }
      i := i + 1;
    }
    assert pages[..i] == pages;
  }

  /** `collect(query, date_from=..., date_to=..., days=...)`. `daysAgo(d)` is the
      current time minus `d` days; `answer` is what the database query returned
      for the query sent, which is reported in `sent`. */
  method Collect(query: string, dbId: string, dateFrom: Option<Json>, dateTo: Option<Json>, days: Option<Json>,
                 now: DateTime, daysAgo: int -> DateTime, answer: Result<seq<MediumPage>, string>)
    returns (r: Result<seq<CollectedData>, Failure>, sent: Option<Query>)
    ensures StartDate(dateFrom, days, daysAgo).None? ==> r == Err(InvalidDays) && sent.None?
    ensures StartDate(dateFrom, days, daysAgo).Some? ==>
      && sent == Some(Query(dbId, DateFilter(StartDate(dateFrom, days, daysAgo).value, dateTo), NewestFirst))
      && (answer.Err? ==> r == Err(QueryFailed(answer.error)))
      && (answer.Ok? ==> r == Ok(Articles(query, answer.value, now)))
  {
    var onOrAfter := ComputeStart(dateFrom, days, daysAgo);
    if onOrAfter.None? {
      return Err(InvalidDays), None;
    }
    sent := Some(Query(dbId, DateFilter(onOrAfter.value, dateTo), NewestFirst));
    if answer.Err? {
      return Err(QueryFailed(answer.error)), sent;
    }
    var collected := CollectPages(query, answer.value, now);
    return Ok(collected), sent;
  }

  /** A page yields an item exactly when the keyword is empty or occurs, ignoring
      case, in its title, Japanese title, summary or author; the items keep the
      pages' order. */
  lemma KeptIff(query: string, pages: seq<MediumPage>, p: MediumPage)
    ensures p in Filter(Keep(query), pages)
        <==> p in pages && (query == [] || Contains(Lower(Searchable(p)), Lower(query)))
    ensures IsSubsequence(Filter(Keep(query), pages), pages)
  {
    FilterMembership(Keep(query), pages, p);
    FilterIsSubsequence(Keep(query), pages);
  }

  /** An empty keyword keeps every page, in order. */
  lemma EmptyQueryKeepsAll(pages: seq<MediumPage>, now: DateTime)
    ensures Articles("", pages, now) == MapSeq(ToRecord(now), pages)
  {
    FilterAll(Keep(""), pages);
  }

  /** The content is the summary and the author line, each only when non-empty,
      on separate lines. */
  lemma ContentLayout(p: MediumPage, now: DateTime)
    ensures p.summary != [] && p.author != [] ==> Record(p, now).content == p.summary + "\n" + ("Author: " + p.author)
    ensures p.summary != [] && p.author == [] ==> Record(p, now).content == p.summary
    ensures p.summary == [] && p.author != [] ==> Record(p, now).content == "Author: " + p.author
    ensures p.summary == [] && p.author == [] ==> Record(p, now).content == []
  {
    if p.summary != [] && p.author != [] {
      assert ContentParts(p)[1..] == ["Author: " + p.author];
    }
  }

  /** Each item comes from a page of the answer that passes the keyword
      filter, has source "notion_medium" and the page's date, and has no URL
      exactly when the page has none. */
  lemma RecordFields(query: string, pages: seq<MediumPage>, now: DateTime, k: nat)
    requires k < |Articles(query, pages, now)|
    ensures var item := Articles(query, pages, now)[k];
      var page := Filter(Keep(query), pages)[k];
      && page in pages && MatchesQuery(query, Searchable(page))
      && item.source == "notion_medium" && item.title == DisplayTitle(page) && item.collectedAt == now
      && (item.url.None? <==> page.url == []) && (item.url.Some? ==> item.url.value == page.url)
      && (item.publishedDate.None? <==> page.date == [])
  {
    var kept := Filter(Keep(query), pages);
    FilterMembership(Keep(query), pages, kept[k]);
  }
}
