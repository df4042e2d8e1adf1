/** What the Notion and web-search collectors share: reading their keyword
    arguments, the keyword match, the `saved_at` cutoff, and keeping only the
    dict entries of a list. The current time and the parsing of timestamps are
    inputs. */
module Collecting {
  import opened Common
  import opened Json
  import opened DateTimes

  const DefaultDays: int := 7

  /** `days = int(days_val) if isinstance(days_val, (int, str)) else 7`, with
      `days_val = kwargs.get("days", 7)`. A `bool` is an `int` to Python; a
      string that `int()` cannot read raises `ValueError` (`None` here). */
  function DaysArg(arg: Option<Json>): (r: Option<int>)
    ensures arg.None? ==> r == Some(DefaultDays)
    ensures arg.Some? && arg.value.JInt? ==> r == Some(arg.value.i)
    ensures arg.Some? && arg.value.JStr? ==> r == ParseInt(arg.value.s)
    ensures arg.Some? && !arg.value.JInt? && !arg.value.JStr? && !arg.value.JBool? ==> r == Some(DefaultDays)
  {
    match arg
    case None => Some(DefaultDays)
    case Some(v) =>
      match v
      case JInt(i) => Some(i)
      case JBool(b) => Some(if b then 1 else 0)
      case JStr(s) => ParseInt(s)
      case _ => Some(DefaultDays)
  }

  /** `kwargs.get(name, [])` when it is a list; `None` when it is anything else,
      which makes the collector return `[]` at once. */
  function ListArg(arg: Option<Json>): (r: Option<seq<Json>>)
    ensures arg.None? ==> r == Some([])
    ensures r.Some? && arg.Some? ==> arg.value == JList(r.value)
    ensures arg.Some? && !arg.value.JList? ==> r.None?
  {
    match arg
    case None => Some([])
    case Some(v) => if v.JList? then Some(v.items) else None
  }

  /** `not query or query.lower() in searchable.lower()`. */
  predicate MatchesQuery(query: string, searchable: string) {
    query == [] || Contains(Lower(searchable), Lower(query))
  }

  /** The `saved_at` check: a page is dropped only when its timestamp is present,
      parses, and lies before the cutoff. `fromIso` is `datetime.fromisoformat`
      with a naive result read as UTC and an aware one converted to UTC. */
  predicate SavedSince(savedAt: string, fromIso: string -> Option<DateTime>, cutoff: DateTime) {
    savedAt == [] || fromIso(savedAt).None? || !Earlier(fromIso(savedAt).value, cutoff)
  }

  /** The `saved_at` check as the loop bodies make it: skip the page only when
      the timestamp is present, parses and is too old. */
  method CheckSavedAt(savedAt: string, fromIso: string -> Option<DateTime>, cutoff: DateTime)
    returns (recent: bool)
    ensures recent == SavedSince(savedAt, fromIso, cutoff)
  {
    if savedAt != [] {
      var parsed := fromIso(savedAt);
      if parsed.Some? && Earlier(parsed.value, cutoff) {
        return false;
      }
    }
    return true;
  }

  /** The timestamp check drops a page exactly when its `saved_at` is a readable
      time earlier than the cutoff. */
  lemma SavedSinceIff(savedAt: string, fromIso: string -> Option<DateTime>, cutoff: DateTime)
    ensures !SavedSince(savedAt, fromIso, cutoff)
        <==> exists t :: savedAt != [] && fromIso(savedAt) == Some(t) && Earlier(t, cutoff)
  {
    if !SavedSince(savedAt, fromIso, cutoff) {
      var t := fromIso(savedAt).value;
      assert savedAt != [] && fromIso(savedAt) == Some(t) && Earlier(t, cutoff);
    }
  }

  /** `value or None` for a string. */
  function OrNone(s: string): (r: Option<string>)
    ensures r.None? <==> s == []
    ensures r.Some? ==> r.value == s
  {
    if s == [] then None else Some(s)
  }

  /** The entries of a list that are dicts, in order: `if not isinstance(item, dict): continue`. */
  function Dicts(items: seq<Json>): (r: seq<map<string, Json>>)
    ensures |r| <= |items|
  {
    if items == [] then []
    else (if items[0].JObj? then [items[0].fields] else []) + Dicts(items[1..])
  }

  lemma {:induction false} DictsSnoc(items: seq<Json>, x: Json)
    ensures Dicts(items + [x]) == Dicts(items) + (if x.JObj? then [x.fields] else [])
  {
    var last := if x.JObj? then [x.fields] else [];
    if items == [] {
      assert items + [x] == [x];
      assert Dicts([x]) == last + Dicts([]);
    } else {
      var first := if items[0].JObj? then [items[0].fields] else [];
      calc {
        Dicts(items + [x]);
      == { assert (items + [x])[0] == items[0]; }
        first + Dicts((items + [x])[1..]);
      == { assert (items + [x])[1..] == items[1..] + [x]; }
        first + Dicts(items[1..] + [x]);
      == { DictsSnoc(items[1..], x); }
        first + (Dicts(items[1..]) + last);
      ==
        (first + Dicts(items[1..])) + last;
      }
    }
  }

  /** A dict is kept exactly when it is one of the entries. */
  lemma {:induction false} DictsMembership(items: seq<Json>, m: map<string, Json>)
    ensures m in Dicts(items) <==> JObj(m) in items
  {
    if items != [] {
      DictsMembership(items[1..], m);
      assert JObj(m) in items <==> JObj(m) == items[0] || JObj(m) in items[1..];
    }
  }

  /** A list with no dicts yields nothing, and a list of dicts yields them all. */
  lemma {:induction false} DictsOfDicts(items: seq<Json>)
    ensures (forall i :: 0 <= i < |items| ==> !items[i].JObj?) ==> Dicts(items) == []
    ensures (forall i :: 0 <= i < |items| ==> items[i].JObj?) ==>
      |Dicts(items)| == |items| && forall i :: 0 <= i < |items| ==> Dicts(items)[i] == items[i].fields
  {
    if items != [] {
      DictsOfDicts(items[1..]);
    }
  }
}
