/** The browser-side request wrapper (api.js): every page talks to the server
    through `apiRequest`, which turns a fetch outcome into `{ data, error }`.
    JSON values are modelled with JavaScript's truthiness, `||` and `??`. */
module Api {
  import opened Common

  /** A JavaScript value as `res.json()` can produce it, plus `undefined`. */
  datatype JsValue =
    | Undefined
    | Null
    | Bool(b: bool)
    | Num(n: real)
    | Str(s: string)
    | Arr(items: seq<JsValue>)
    | Obj(fields: map<string, JsValue>)

  predicate Truthy(v: JsValue)
  {
    match v
    case Undefined => false
    case Null => false
    case Bool(b) => b
    case Num(n) => n != 0.0
    case Str(s) => s != ""
    case Arr(_) => true
    case Obj(_) => true
  }

  predicate Nullish(v: JsValue)
  {
    v.Undefined? || v.Null?
  }

  /** `v.key` on a value that is not null or undefined: a missing key, or any
      non-object, gives `undefined`. */
  function Get(v: JsValue, key: string): (r: JsValue)
    ensures !v.Obj? ==> r == Undefined
  {
    if v.Obj? && key in v.fields then v.fields[key] else Undefined
  }

  /** `a || b`. */
  function Or(a: JsValue, b: JsValue): (r: JsValue)
    ensures Truthy(a) ==> r == a
    ensures !Truthy(a) ==> r == b
  {
    if Truthy(a) then a else b
  }

  /** `a ?? b`. */
  function Coalesce(a: JsValue, b: JsValue): (r: JsValue)
    ensures !Nullish(a) ==> r == a
    ensures Nullish(a) ==> r == b
  {
    if Nullish(a) then b else a
  }

  /** The response body: parsed JSON, or a body `res.json()` rejects. */
  datatype Body = Json(value: JsValue) | NotJson

  /** A fetch either throws (network failure, with the error's message) or
      yields a status and a body. */
  datatype Fetch = Threw(message: string) | Responded(status: int, body: Body)

  /** `{ data, error }`; `error` holds the value of `error.message`. */
  datatype ApiResult = ApiResult(data: JsValue, error: Option<JsValue>)

  /** `res.ok`. */
  predicate StatusOk(status: int)
  {
    200 <= status <= 299
  }

  /** `await res.json().catch(() => ({}))`. */
  function BodyValue(b: Body): JsValue
  {
    if b.Json? then b.value else Obj(map[])
  }

  const NetworkError := "Network error"

  /** The text of the TypeError raised by reading a property of a JSON `null`
      body; its wording is the browser engine's. */
  function NullAccessMessage(holder: JsValue, key: string): string
  {
    "Cannot read properties of " + (if holder.Null? then "null" else "undefined") + " (reading '" + key + "')"
  }

  /** Whether the wrapper reports an error for a response that did not throw:
      a non-2xx status, or a body whose `ok` is exactly `false`. */
  predicate Rejected(status: int, out: JsValue)
  {
    !StatusOk(status) || Get(out, "ok") == Bool(false)
  }

  /** `apiRequest(path, ...)` after the fetch. */
  function ApiRequest(f: Fetch): (r: ApiResult)
    ensures r.error.Some? ==> r.data == Null && Truthy(r.error.value)
    ensures r.error.None? <==>
      f.Responded? && !Nullish(BodyValue(f.body)) && !Rejected(f.status, BodyValue(f.body))
    ensures r.error.None? ==> !Nullish(r.data)
  {
    match f
    case Threw(m) => ApiResult(Null, Some(Str(if m == "" then NetworkError else m)))
    case Responded(status, body) =>
      var out := BodyValue(body);
      if Nullish(out) then
        // `!res.ok` short-circuits to `out.error`, otherwise `out.ok` is read
        ApiResult(Null, Some(Str(NullAccessMessage(out, if StatusOk(status) then "ok" else "error"))))
      else if Rejected(status, out) then
        ApiResult(Null, Some(Or(Get(out, "error"), Or(Get(out, "message"), Str("HTTP " + IntToString(status))))))
      else
        ApiResult(Coalesce(Get(out, "data"), Coalesce(Get(out, "user"), out)), None)
  }

  /** An error message is chosen as `error`, then `message`, then `HTTP <status>`. */
  lemma MessagePrecedence(status: int, m: map<string, JsValue>)
    requires Rejected(status, Obj(m))
    ensures var e := ApiRequest(Responded(status, Json(Obj(m)))).error;
      e.Some? &&
      ("error" in m && Truthy(m["error"]) ==> e.value == m["error"]) &&
      (!("error" in m && Truthy(m["error"])) && "message" in m && Truthy(m["message"]) ==> e.value == m["message"]) &&
      (!("error" in m && Truthy(m["error"])) && !("message" in m && Truthy(m["message"])) ==>
        e.value == Str("HTTP " + IntToString(status)))
  {
  }

  /** A body that is not JSON is read as `{}`: a 2xx reply then succeeds with
      `{}` as its data, any other status fails with `HTTP <status>`. */
  lemma UnparsedBody(status: int)
    ensures StatusOk(status) ==> ApiRequest(Responded(status, NotJson)) == ApiResult(Obj(map[]), None)
    ensures !StatusOk(status) ==>
      ApiRequest(Responded(status, NotJson)) == ApiResult(Null, Some(Str("HTTP " + IntToString(status))))
  {
  }

  /** A thrown fetch reports its own message, or "Network error" when empty. */
  lemma ThrownFetch(m: string)
    ensures ApiRequest(Threw(m)).error == Some(Str(if m == "" then NetworkError else m))
  {
  }

  // ---------------------------------------------------------------------------
  // The server's JSON envelopes

  /** `jsonify({"ok": False, "error": message})`. */
  function ErrorBody(message: string): JsValue
  {
    Obj(map["ok" := Bool(false), "error" := Str(message)])
  }

  /** `jsonify({"ok": True, "data": value})`. */
  function DataBody(value: JsValue): JsValue
  {
    Obj(map["ok" := Bool(true), "data" := value])
  }

  /** A 2xx object reply whose `ok` is not `false` succeeds, with `data`,
      else `user`, else the object itself as its data. */
  lemma SuccessEnvelope(status: int, m: map<string, JsValue>)
    requires StatusOk(status) && !("ok" in m && m["ok"] == Bool(false))
    ensures ApiRequest(Responded(status, Json(Obj(m)))) ==
      ApiResult(Coalesce(Get(Obj(m), "data"), Coalesce(Get(Obj(m), "user"), Obj(m))), None)
  {
  }

  /** The server's error texts reach the page unchanged, whatever the status. */
  lemma ErrorRoundTrip(status: int, message: string)
    requires message != ""
    ensures ApiRequest(Responded(status, Json(ErrorBody(message)))) == ApiResult(Null, Some(Str(message)))
  {
    assert Get(ErrorBody(message), "ok") == Bool(false);
  }

  /** A successful reply hands its `data` to the page when it is not null. */
  lemma DataRoundTrip(status: int, value: JsValue)
    requires StatusOk(status) && !Nullish(value)
    ensures ApiRequest(Responded(status, Json(DataBody(value)))) == ApiResult(value, None)
  {
    assert Get(DataBody(value), "ok") == Bool(true);
  }

  /** As written, a successful reply whose `data` is null hands the page the
      whole envelope instead: `??` skips null `data` and absent `user`. */
  lemma NullDataYieldsEnvelope(status: int)
    requires StatusOk(status)
    ensures var r := ApiRequest(Responded(status, Json(DataBody(Null))));
      r.error.None? && r.data == DataBody(Null) && Truthy(r.data)
  {
    assert Get(DataBody(Null), "ok") == Bool(true);
    assert Get(DataBody(Null), "data") == Null;
  }

  /** The wrapper with the evident intent for `data`: a `data` key that is
      present is passed on even when null; otherwise `user ?? out` as before. */
  function ApiRequestFixed(f: Fetch): (r: ApiResult)
    ensures r.error == ApiRequest(f).error
    ensures r.error.Some? ==> r.data == Null
    ensures r.error.None? ==> f.Responded?
    ensures r.error.None? && BodyValue(f.body).Obj? && "data" in BodyValue(f.body).fields ==> r.data == BodyValue(f.body).fields["data"]
    ensures r.error.None? && !Nullish(Get(BodyValue(f.body), "data")) ==> r.data == ApiRequest(f).data
  {
    var base := ApiRequest(f);
    if base.error.Some? then base
    else
      var out := BodyValue(f.body);
      if out.Obj? && "data" in out.fields then ApiResult(out.fields["data"], None)
      else base
  }

  /** With the fix, "no row" replies (`data: null`) reach the page as null. */
  lemma FixedNullData(status: int)
    requires StatusOk(status)
    ensures ApiRequestFixed(Responded(status, Json(DataBody(Null)))) == ApiResult(Null, None)
  {
    assert Get(DataBody(Null), "ok") == Bool(true);
  }

  // ---------------------------------------------------------------------------
  // URLs

  const HistoryPath := "/api/observaciones/mias"

  /** `listarMisObservaciones`: the query string is appended after `?` only
      when it is not empty (`qs` is already encoded by `URLSearchParams`). */
  function HistoryUrl(qs: string): (r: string)
    ensures qs == "" <==> r == HistoryPath
    ensures qs != "" ==> |r| == |HistoryPath| + 1 + |qs| && r[..|HistoryPath| + 1] == HistoryPath + "?" && r[|HistoryPath| + 1..] == qs
  {
    if qs == "" then HistoryPath else HistoryPath + "?" + qs
  }
}
