/** `src/collectors/notion_news.py`: turning the Google Alert news pages read
    from Notion into collected items, dropping pages saved before the cutoff and
    pages whose title and summary both miss the keyword. The current time, the
    cutoff it implies and timestamp parsing are inputs. */
module NotionNews {
  import opened Common
  import opened Json
  import opened Models
  import opened DateTimes
  import opened Collecting

  function Title(page: map<string, Json>): string {
    Str(GetOr(page, "title", JStr("Untitled")))
  }

  function Record(page: map<string, Json>, now: DateTime): CollectedData {
    CollectedData("notion_news", Title(page), OrNone(StrField(page, "url")),
                  StrField(page, "summary"), now, None)
  }

  /** Whether a dict page survives both checks: the keyword is looked for in the
      title, and only when it is missing there, in the summary. */
  function Keep(query: string, cutoff: DateTime, fromIso: string -> Option<DateTime>): map<string, Json> -> bool {
    page => SavedSince(StrField(page, "saved_at"), fromIso, cutoff)
            && (MatchesQuery(query, Title(page)) || MatchesQuery(query, StrField(page, "summary")))
  }

  function ToRecord(now: DateTime): map<string, Json> -> CollectedData {
    page => Record(page, now)
  }

  /** The items `collect` returns for a list of pages: the dict pages that pass
      both checks, converted, in order. */
  function News(query: string, pages: seq<Json>, cutoff: DateTime,
                fromIso: string -> Option<DateTime>, now: DateTime): seq<CollectedData> {
    MapSeq(ToRecord(now), Filter(Keep(query, cutoff, fromIso), Dicts(pages)))
  }

  /** The two checks of the loop body, in the order `collect` makes them. */
  method Passes(query: string, page: map<string, Json>, cutoff: DateTime, fromIso: string -> Option<DateTime>)
    returns (keep: bool)
    ensures keep == Keep(query, cutoff, fromIso)(page)
  {
    var recent := CheckSavedAt(StrField(page, "saved_at"), fromIso, cutoff);
    if !recent {
      return false;
    }
    var title := Title(page);
    if query != [] && !Contains(Lower(title), Lower(query)) {
      var contentText := StrField(page, "summary");
      if !Contains(Lower(contentText), Lower(query)) {
        assert !MatchesQuery(query, title) && !MatchesQuery(query, contentText);
        return false;
      }
      assert MatchesQuery(query, contentText);
    } else {
      assert MatchesQuery(query, title);
    }
    return true;
  }

  /** The items one more entry contributes. */
  function Added(query: string, item: Json, cutoff: DateTime,
                 fromIso: string -> Option<DateTime>, now: DateTime): seq<CollectedData> {
    if item.JObj? && Keep(query, cutoff, fromIso)(item.fields) then [Record(item.fields, now)] else []
  }

  /** One more entry: a dict page that passes both checks adds its item, and
      anything else adds nothing. */
  lemma NewsSnoc(query: string, items: seq<Json>, item: Json, cutoff: DateTime,
                 fromIso: string -> Option<DateTime>, now: DateTime)
    ensures News(query, items + [item], cutoff, fromIso, now)
         == News(query, items, cutoff, fromIso, now) + Added(query, item, cutoff, fromIso, now)
  {
    var keep := Keep(query, cutoff, fromIso);
    DictsSnoc(items, item);
    if item.JObj? {
      FilterSnoc(keep, Dicts(items), item.fields);
      MapSeqSnoc(ToRecord(now), Filter(keep, Dicts(items)), item.fields);
    } else {
      assert Dicts(items + [item]) == Dicts(items);
    }
  }

  /** `collect(query, pages=..., days=...)`. `daysAgo(d)` is the current time
      minus `d` days; `None` is the `ValueError` of an unreadable `days`. */
  method Collect(query: string, pagesArg: Option<Json>, daysArg: Option<Json>, now: DateTime,
                 daysAgo: int -> DateTime, fromIso: string -> Option<DateTime>)
    returns (r: Option<seq<CollectedData>>)
    ensures ListArg(pagesArg).None? ==> r == Some([])
    ensures ListArg(pagesArg).Some? && DaysArg(daysArg).None? ==> r.None?
    ensures ListArg(pagesArg).Some? && DaysArg(daysArg).Some? ==>
      r == Some(News(query, ListArg(pagesArg).value, daysAgo(DaysArg(daysArg).value), fromIso, now))
  {
    var pages := ListArg(pagesArg);
    if pages.None? {
      return Some([]);
    }
    var days := DaysArg(daysArg);
    if days.None? {
      return None;
    }
    var collected := CollectPages(query, pages.value, daysAgo(days.value), fromIso, now);
    return Some(collected);
  }

  /** The loop over the pages: the dict pages that pass both checks, converted, in order. */
  method CollectPages(query: string, items: seq<Json>, cutoff: DateTime,
                      fromIso: string -> Option<DateTime>, now: DateTime)
    returns (collected: seq<CollectedData>)
    ensures collected == News(query, items, cutoff, fromIso, now)
  {
    collected := [];
    var i := 0;
    while i < |items|
      invariant 0 <= i <= |items|
      invariant collected == News(query, items[..i], cutoff, fromIso, now)
    {
      var item := items[i];
      var added: seq<CollectedData> := [];
      if item.JObj? {
        var keep := Passes(query, item.fields, cutoff, fromIso);
        if keep {
          added := [Record(item.fields, now)];
        }
      }
      assert added == Added(query, item, cutoff, fromIso, now);
      assert items[..i + 1] == items[..i] + [item];
      NewsSnoc(query, items[..i], item, cutoff, fromIso, now);
      collected := collected + added;
      i := i + 1;
    }
    assert items[..i] == items;
  }

  /** A dict page yields an item exactly when it was saved since the cutoff (or
      its time is absent or unreadable) and the keyword occurs in its title or in
      its summary; the items keep the pages' order. */
  lemma KeptIff(query: string, pages: seq<Json>, cutoff: DateTime,
                fromIso: string -> Option<DateTime>, page: map<string, Json>)
    ensures page in Filter(Keep(query, cutoff, fromIso), Dicts(pages))
        <==> JObj(page) in pages && SavedSince(StrField(page, "saved_at"), fromIso, cutoff)
             && (query == [] || Contains(Lower(Title(page)), Lower(query))
                 || Contains(Lower(StrField(page, "summary")), Lower(query)))
    ensures IsSubsequence(Filter(Keep(query, cutoff, fromIso), Dicts(pages)), Dicts(pages))
  {
    FilterMembership(Keep(query, cutoff, fromIso), Dicts(pages), page);
    DictsMembership(pages, page);
    FilterIsSubsequence(Keep(query, cutoff, fromIso), Dicts(pages));
  }

  /** Each item carries its page's summary as content, "Untitled" when the page
      has no title, and no URL when the page has none. */
  lemma RecordFields(query: string, pages: seq<Json>, cutoff: DateTime,
                     fromIso: string -> Option<DateTime>, now: DateTime, k: nat)
    requires k < |News(query, pages, cutoff, fromIso, now)|
    ensures var item := News(query, pages, cutoff, fromIso, now)[k];
      var page := Filter(Keep(query, cutoff, fromIso), Dicts(pages))[k];
      && item.source == "notion_news" && item.content == StrField(page, "summary")
      && ("title" !in page ==> item.title == "Untitled")
      && ("url" !in page ==> item.url.None?)
      && JObj(page) in pages
  {
    var kept := Filter(Keep(query, cutoff, fromIso), Dicts(pages));
    DictsMembership(pages, kept[k]);
    FilterMembership(Keep(query, cutoff, fromIso), Dicts(pages), kept[k]);
  }
}
