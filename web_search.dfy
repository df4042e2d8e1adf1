/** `src/collectors/web_search.py`: turning search results handed over as a
    list of dicts into collected items. The search itself happens elsewhere;
    the current time is an input. */
module WebSearch {
  import opened Common
  import opened Json
  import opened Models
  import opened DateTimes
  import opened Collecting

  /** One result as an item. The URL is kept even when empty: this collector
      does not turn "" into `None`. */
  function Record(item: map<string, Json>, now: DateTime): CollectedData {
    CollectedData("web_search", Str(GetOr(item, "title", JStr("Untitled"))),
                  Some(StrField(item, "url")), StrField(item, "content"), now, None)
  }

  function ToRecord(now: DateTime): map<string, Json> -> CollectedData {
    item => Record(item, now)
  }

  /** `collect(query, results=...)`: one item per dict result, in order, all
      stamped with the same time; anything but a list yields nothing. The query
      is not used. */
  method Collect(query: string, resultsArg: Option<Json>, now: DateTime) returns (r: seq<CollectedData>)
    ensures ListArg(resultsArg).None? ==> r == []
    ensures ListArg(resultsArg).Some? ==> r == MapSeq(ToRecord(now), Dicts(ListArg(resultsArg).value))
  {
    var results := ListArg(resultsArg);
    if results.None? {
      return [];
    }
    var items := results.value;
    var collected: seq<CollectedData> := [];
    var i := 0;
    while i < |items|
      invariant 0 <= i <= |items|
      invariant collected == MapSeq(ToRecord(now), Dicts(items[..i]))
    {
      var item := items[i];
      assert items[..i + 1] == items[..i] + [item];
      DictsSnoc(items[..i], item);
      if item.JObj? {
        MapSeqSnoc(ToRecord(now), Dicts(items[..i]), item.fields);
        collected := collected + [Record(item.fields, now)];
      }
      i := i + 1;
    }
    assert items[..i] == items;
    return collected;
  }

  /** Every item comes from a dict result, shares the one collection time, and
      falls back to "Untitled", "" and "" for a missing title, URL and content;
      a list of dicts yields exactly one item per result. */
  lemma ItemsOfResults(results: seq<Json>, now: DateTime, k: nat)
    requires k < |Dicts(results)|
    ensures var item := MapSeq(ToRecord(now), Dicts(results))[k];
      var result := Dicts(results)[k];
      && JObj(result) in results
      && item.source == "web_search" && item.collectedAt == now
      && ("title" !in result ==> item.title == "Untitled")
      && ("url" !in result ==> item.url == Some(""))
      && ("content" !in result ==> item.content == "")
    ensures (forall i :: 0 <= i < |results| ==> results[i].JObj?) ==> |MapSeq(ToRecord(now), Dicts(results))| == |results|
  {
    DictsMembership(results, Dicts(results)[k]);
    DictsOfDicts(results);
  }
}
