/** `src/collectors/notion_paper.py`: turning the arXiv paper pages read from
    Notion into collected items, dropping pages saved before the cutoff and
    pages that do not mention the keyword. The current time, the cutoff it
    implies and timestamp parsing are inputs. */
module NotionPaper {
  import opened Common
  import opened Json
  import opened Models
  import opened DateTimes
  import opened Collecting

  function Title(page: map<string, Json>): string {
    Str(GetOr(page, "title", JStr("Untitled")))
  }

  /** The text the keyword is looked for in: title, abstract and category. */
  function Searchable(page: map<string, Json>): string {
    Title(page) + " " + StrField(page, "abstract") + " " + StrField(page, "category")
  }

  /** The content lines: authors, category and the abstract after a blank line,
      each only when non-empty. */
  function ContentParts(page: map<string, Json>): seq<string> {
    var authors := StrField(page, "authors");
    var category := StrField(page, "category");
    var abstractText := StrField(page, "abstract");
    (if authors != [] then ["Authors: " + authors] else [])
    + (if category != [] then ["Category: " + category] else [])
    + (if abstractText != [] then ["\n" + abstractText] else [])
  }

  function Record(page: map<string, Json>, now: DateTime): CollectedData {
    CollectedData("notion_paper", Title(page), OrNone(StrField(page, "url")),
                  Join("\n", ContentParts(page)), now, None)
  }

  /** Whether a dict page survives both checks. */
  function Keep(query: string, cutoff: DateTime, fromIso: string -> Option<DateTime>): map<string, Json> -> bool {
    page => SavedSince(StrField(page, "saved_at"), fromIso, cutoff) && MatchesQuery(query, Searchable(page))
  }

  function ToRecord(now: DateTime): map<string, Json> -> CollectedData {
    page => Record(page, now)
  }

  /** The items `collect` returns for a list of pages: the dict pages that pass
      both checks, converted, in order. */
  function Papers(query: string, pages: seq<Json>, cutoff: DateTime,
                  fromIso: string -> Option<DateTime>, now: DateTime): seq<CollectedData> {
    MapSeq(ToRecord(now), Filter(Keep(query, cutoff, fromIso), Dicts(pages)))
  }

  /** The two checks of the loop body, in the order `collect` makes them. */
  method Passes(query: string, page: map<string, Json>, cutoff: DateTime, fromIso: string -> Option<DateTime>)
    returns (keep: bool)
    ensures keep == Keep(query, cutoff, fromIso)(page)
  {
    var recent := CheckSavedAt(StrField(page, "saved_at"), fromIso, cutoff);
    if !recent {
      return false;
    }
    var title := Title(page);
    var abstractText := StrField(page, "abstract");
    var category := StrField(page, "category");
    if query != [] && !Contains(Lower(title + " " + abstractText + " " + category), Lower(query)) {
      return false;
    }
    return true;
  }

  /** The items one more entry contributes. */
  function Added(query: string, item: Json, cutoff: DateTime,
                 fromIso: string -> Option<DateTime>, now: DateTime): seq<CollectedData> {
    if item.JObj? && Keep(query, cutoff, fromIso)(item.fields) then [Record(item.fields, now)] else []
  }

  /** One more entry: a dict page that passes both checks adds its item, and
      anything else adds nothing. */
  lemma PapersSnoc(query: string, items: seq<Json>, item: Json, cutoff: DateTime,
                   fromIso: string -> Option<DateTime>, now: DateTime)
    ensures Papers(query, items + [item], cutoff, fromIso, now)
         == Papers(query, items, cutoff, fromIso, now) + Added(query, item, cutoff, fromIso, now)
  {
    var keep := Keep(query, cutoff, fromIso);
    DictsSnoc(items, item);
    if item.JObj? {
      FilterSnoc(keep, Dicts(items), item.fields);
      MapSeqSnoc(ToRecord(now), Filter(keep, Dicts(items)), item.fields);
    } else {
      assert Dicts(items + [item]) == Dicts(items);
    }
  }

  /** `collect(query, pages=..., days=...)`. `daysAgo(d)` is the current time
      minus `d` days; `None` is the `ValueError` of an unreadable `days`. */
  method Collect(query: string, pagesArg: Option<Json>, daysArg: Option<Json>, now: DateTime,
                 daysAgo: int -> DateTime, fromIso: string -> Option<DateTime>)
    returns (r: Option<seq<CollectedData>>)
    ensures ListArg(pagesArg).None? ==> r == Some([])
    ensures ListArg(pagesArg).Some? && DaysArg(daysArg).None? ==> r.None?
    ensures ListArg(pagesArg).Some? && DaysArg(daysArg).Some? ==>
      r == Some(Papers(query, ListArg(pagesArg).value, daysAgo(DaysArg(daysArg).value), fromIso, now))
  {
    var pages := ListArg(pagesArg);
    if pages.None? {
      return Some([]);
    }
    var days := DaysArg(daysArg);
    if days.None? {
      return None;
    }
    var collected := CollectPages(query, pages.value, daysAgo(days.value), fromIso, now);
    return Some(collected);
  }

  /** The loop over the pages: the dict pages that pass both checks, converted, in order. */
  method CollectPages(query: string, items: seq<Json>, cutoff: DateTime,
                      fromIso: string -> Option<DateTime>, now: DateTime)
    returns (collected: seq<CollectedData>)
    ensures collected == Papers(query, items, cutoff, fromIso, now)
  {
    collected := [];
    var i := 0;
    while i < |items|
      invariant 0 <= i <= |items|
      invariant collected == Papers(query, items[..i], cutoff, fromIso, now)
    {
      var item := items[i];
      var added: seq<CollectedData> := [];
      if item.JObj? {
        var keep := Passes(query, item.fields, cutoff, fromIso);
        if keep {
          added := [Record(item.fields, now)];
        }
      }
      assert added == Added(query, item, cutoff, fromIso, now);
      assert items[..i + 1] == items[..i] + [item];
      PapersSnoc(query, items[..i], item, cutoff, fromIso, now);
      collected := collected + added;
      i := i + 1;
    }
    assert items[..i] == items;
  }

  /** A dict page yields an item exactly when it was saved since the cutoff (or
      its time is absent or unreadable) and it mentions the keyword; the items
      keep the pages' order. */
  lemma KeptIff(query: string, pages: seq<Json>, cutoff: DateTime,
                fromIso: string -> Option<DateTime>, page: map<string, Json>)
    ensures page in Filter(Keep(query, cutoff, fromIso), Dicts(pages))
        <==> JObj(page) in pages && SavedSince(StrField(page, "saved_at"), fromIso, cutoff)
             && (query == [] || Contains(Lower(Searchable(page)), Lower(query)))
    ensures IsSubsequence(Filter(Keep(query, cutoff, fromIso), Dicts(pages)), Dicts(pages))
  {
    FilterMembership(Keep(query, cutoff, fromIso), Dicts(pages), page);
    DictsMembership(pages, page);
    FilterIsSubsequence(Keep(query, cutoff, fromIso), Dicts(pages));
  }

  /** With no keyword and no page carrying a `saved_at`, every dict page yields
      its item, in order. */
  lemma NoFilterKeepsEveryDict(pages: seq<Json>, cutoff: DateTime,
                               fromIso: string -> Option<DateTime>, now: DateTime)
    requires forall i :: 0 <= i < |pages| && pages[i].JObj? ==> StrField(pages[i].fields, "saved_at") == []
    ensures Papers("", pages, cutoff, fromIso, now) == MapSeq(ToRecord(now), Dicts(pages))
  {
    var dicts := Dicts(pages);
    forall k | 0 <= k < |dicts| ensures Keep("", cutoff, fromIso)(dicts[k]) {
      DictsMembership(pages, dicts[k]);
      var j :| 0 <= j < |pages| && pages[j] == JObj(dicts[k]);
      assert StrField(pages[j].fields, "saved_at") == [];
    }
    FilterAll(Keep("", cutoff, fromIso), dicts);
  }

  /** With authors, category and abstract all present, the content lists the
      authors, then the category, then a blank line and the abstract. */
  lemma ContentLayout(page: map<string, Json>, now: DateTime)
    requires StrField(page, "authors") != [] && StrField(page, "category") != [] && StrField(page, "abstract") != []
    ensures Record(page, now).content
         == "Authors: " + StrField(page, "authors") + "\n" + "Category: " + StrField(page, "category")
            + "\n" + "\n" + StrField(page, "abstract")
  {
    var parts := ContentParts(page);
    var a, c, b := "Authors: " + StrField(page, "authors"), "Category: " + StrField(page, "category"),
                   "\n" + StrField(page, "abstract");
    assert parts == [a, c, b];
    assert parts[1..] == [c, b];
    assert parts[1..][1..] == [b];
    assert Join("\n", parts) == a + "\n" + (c + "\n" + b);
  }

  /** Parts that are empty leave no line behind: no parts give an empty
      content, and an abstract alone is preceded by its blank line only. */
  lemma ContentOmitsEmpty(page: map<string, Json>, now: DateTime)
    ensures StrField(page, "authors") == [] && StrField(page, "category") == [] ==>
      Record(page, now).content == (if StrField(page, "abstract") == [] then [] else "\n" + StrField(page, "abstract"))
    ensures StrField(page, "abstract") == [] && StrField(page, "category") == [] && StrField(page, "authors") != [] ==>
      Record(page, now).content == "Authors: " + StrField(page, "authors")
  {
  }

  /** Each item has source "notion_paper", "Untitled" when its page has no
      title, no URL exactly when its page's URL is empty, and comes from a
      dict page of the list. */
  lemma RecordFields(query: string, pages: seq<Json>, cutoff: DateTime,
                     fromIso: string -> Option<DateTime>, now: DateTime, k: nat)
    requires k < |Papers(query, pages, cutoff, fromIso, now)|
    ensures var item := Papers(query, pages, cutoff, fromIso, now)[k];
      var page := Filter(Keep(query, cutoff, fromIso), Dicts(pages))[k];
      && item.source == "notion_paper" && item.collectedAt == now && item.publishedDate.None?
      && ("title" !in page ==> item.title == "Untitled")
      && (item.url.None? <==> StrField(page, "url") == [])
      && JObj(page) in pages
  {
    var kept := Filter(Keep(query, cutoff, fromIso), Dicts(pages));
    DictsMembership(pages, kept[k]);
    FilterMembership(Keep(query, cutoff, fromIso), Dicts(pages), kept[k]);
  }
}
