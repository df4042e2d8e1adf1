/** What the core receives from the services it calls: decoded JSON values and
    HTTP responses. Transport, timeouts and decoding themselves are outside the
    model; a response arrives already decoded, or marked as undecodable. */
module Json {
  import opened Common

  /** A decoded JSON document as Python sees it after `response.json()`. */
  datatype Json =
    | JStr(s: string)
    | JInt(i: int)
    | JFloat(text: string)
    | JBool(b: bool)
    | JNull
    | JList(items: seq<Json>)
    | JObj(fields: map<string, Json>)

  /** `isinstance(j, dict)`. */
  predicate IsDict(j: Json) { j.JObj? }

  /** `isinstance(j, list)`. */
  predicate IsList(j: Json) { j.JList? }

  /** `d.get(key, default)` on a dict. */
  function GetOr(fields: map<string, Json>, key: string, default: Json): (r: Json)
    ensures key in fields ==> r == fields[key]
    ensures key !in fields ==> r == default
  {
    if key in fields then fields[key] else default
  }

  /** `str(j)` for the scalar values the services send; a nested list or dict is
      rendered as the empty string. */
  function Str(j: Json): string {
    match j
    case JStr(s) => s
    case JInt(i) => IntToString(i)
    case JFloat(t) => t
    case JBool(b) => if b then "True" else "False"
    case JNull => "None"
    case JList(_) => ""
    case JObj(_) => ""
  }

  /** `str(d.get(key, ""))`: the string form of a field, "" when it is absent. */
  function StrField(fields: map<string, Json>, key: string): (r: string)
    ensures key !in fields ==> r == ""
    ensures key in fields && fields[key].JStr? ==> r == fields[key].s
  {
    Str(GetOr(fields, key, JStr("")))
  }

  /** Python truthiness of a JSON value. */
  predicate IsTruthy(j: Json) {
    match j
    case JStr(s) => s != []
    case JInt(i) => i != 0
    case JFloat(t) => t != "0.0" && t != "-0.0"
    case JBool(b) => b
    case JNull => false
    case JList(items) => items != []
    case JObj(fields) => fields != map[]
  }

  /** `response.is_success`: the statuses `raise_for_status` lets through. */
  predicate IsSuccess(status: int) { 200 <= status < 300 }

  /** One HTTP response: its status, its raw text, and its body decoded as JSON
      (`None` when `response.json()` raises). */
  datatype Response = Response(status: int, text: string, body: Option<Json>)

  /** What one request produced: a response, or an `httpx.HTTPError` raised by the
      transport before any response arrived. */
  datatype Outcome = Answer(response: Response) | TransportError(detail: string)
}
