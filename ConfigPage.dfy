/** The hardware configuration page (config.js): it loads the stored hosts
    and ports of the controller board ("ESP32 Base") and the camera board
    ("ESP32 Cámara") of telescope 1 into a form, and saves either one after
    normalising the host and the port. */
module ConfigPage {
  import opened Common
  import opened Api
  import opened Backend

  /** The telescope the page configures. */
  const PageTelescope := 1

  // ---------------------------------------------------------------------------
  // Port and host normalisation

  /** A JavaScript number as `Number(v)` yields it. */
  datatype JsNumber = NaN | PosInfinity | NegInfinity | Finite(x: real)

  /** `toPort(v, fallback)` on `n = Number(v)`: the fallback unless `n` is a
      finite number in (0, 65535], else `Math.trunc(n)`. */
  function ToPort(n: JsNumber, fallback: int): (p: int)
    ensures !n.Finite? || n.x <= 0.0 || n.x > 65535.0 ==> p == fallback
    ensures n.Finite? && 0.0 < n.x <= 65535.0 ==> p as real <= n.x < p as real + 1.0
  {
    if !n.Finite? || n.x <= 0.0 || n.x > 65535.0 then fallback else n.x.Floor
  }

  /** With the default fallback the port is never above 65535 nor negative;
      it is 0 only for a number strictly between 0 and 1. */
  lemma ToPortBounds(n: JsNumber)
    ensures 0 <= ToPort(n, 80) <= 65535
    ensures ToPort(n, 80) == 0 <==> n.Finite? && 0.0 < n.x < 1.0
  {
  }

  /** A whole number in 1..65535 is kept as it is. */
  lemma ToPortKeepsPorts(k: int)
    requires 1 <= k <= 65535
    ensures ToPort(Finite(k as real), 80) == k
  {
  }

  /** The value of a string of decimal digits. */
  function DigitsValue(s: string): nat
    requires forall i :: 0 <= i < |s| ==> IsDigit(s[i])
  {
    if s == [] then 0
    else
      assert IsDigit(s[|s| - 1]);
      DigitsValue(s[..|s| - 1]) * 10 + (s[|s| - 1] as int - '0' as int)
  }

  /** `Number(text)` for the texts the model covers: a blank text is 0 and a
      plain run of decimal digits (around whitespace) is its value; None for
      any other text. */
  function TextNumber(text: string): (n: Option<JsNumber>)
    ensures n.Some? ==> n.value.Finite? && n.value.x >= 0.0
    ensures Trim(text) == "" ==> n == Some(Finite(0.0))
  {
    var t := Trim(text);
    if t == "" then Some(Finite(0.0))
    else if forall i :: 0 <= i < |t| ==> IsDigit(t[i]) then Some(Finite(DigitsValue(t) as real))
    else None
  }

  /** Reading back a rendered number gives the number. */
  lemma {:induction false} DigitsOfNat(n: nat)
    ensures DigitsValue(NatToString(n)) == n
  {
    if n >= 10 {
      DigitsOfNat(n / 10);
      var s := NatToString(n);
      assert s[..|s| - 1] == NatToString(n / 10);
    }
  }

  /** A non-empty run of digits is read as its value. */
  lemma TextNumberOfDigits(s: string)
    requires |s| > 0 && forall i :: 0 <= i < |s| ==> IsDigit(s[i])
    ensures TextNumber(s) == Some(Finite(DigitsValue(s) as real))
  {
    assert IsDigit(s[0]) && IsDigit(s[|s| - 1]);
    assert Trimmed(s);
    TrimOfTrimmed(s);
  }

  /** A port typed as its decimal text is saved as that port, and a blank
      port field is saved as 80. */
  lemma PortFieldRoundTrip(p: int)
    requires 1 <= p <= 65535
    ensures TextNumber(NatToString(p)) == Some(Finite(p as real))
    ensures ToPort(TextNumber(NatToString(p)).value, 80) == p
    ensures ToPort(TextNumber("").value, 80) == 80
  {
    DigitsOfNat(p);
    TextNumberOfDigits(NatToString(p));
    ToPortKeepsPorts(p);
  }

  /** `normHost(v)`: `(v || "").trim()`. */
  function NormHost(v: Option<string>): (h: string)
    ensures Trimmed(h) && |h| <= |OrEmpty(v)|
    ensures h == "" <==> forall i :: 0 <= i < |OrEmpty(v)| ==> IsSpace(OrEmpty(v)[i])
  {
    TrimEmptyIff(OrEmpty(v));
    Trim(OrEmpty(v))
  }

  /** The host is the typed text with only whitespace cut from its ends. */
  lemma NormHostSlice(v: Option<string>)
    ensures exists i, j :: 0 <= i <= j <= |OrEmpty(v)| && NormHost(v) == OrEmpty(v)[i..j] && Outside(OrEmpty(v), i, j)
  {
    TrimSlice(OrEmpty(v));
  }

  /** Normalising a normalised host changes nothing. */
  lemma NormHostIdempotent(v: Option<string>)
    ensures NormHost(Some(NormHost(v))) == NormHost(v)
  {
    TrimIdempotent(OrEmpty(v));
  }

  // ---------------------------------------------------------------------------
  // Saving

  /** The two boards the page configures. */
  datatype Device = Base | Cam

  /** The `tipo` each board is saved under. */
  function KindOf(d: Device): (k: string)
    ensures IsKind(k)
  {
    if d.Base? then "esp32_base" else "esp32_cam"
  }

  /** The text shown under the form. */
  datatype Msg = Text(text: string) | WithValue(prefix: string, value: JsValue)

  function HostRequired(d: Device): string
  {
    if d.Base? then "⚠️ Host/IP del ESP32 Base es requerido." else "⚠️ Host/IP del ESP32 Cámara es requerido."
  }

  function Saved(d: Device): string
  {
    if d.Base? then "✅ ESP32 Base guardado." else "✅ ESP32 Cámara guardada."
  }

  function Unexpected(d: Device): string
  {
    if d.Base? then "Error inesperado guardando ESP32 Base." else "Error inesperado guardando ESP32 Cámara."
  }

  /** The body of the save request. */
  datatype SaveCall = SaveCall(telescope: int, kind: string, host: string, port: int)

  /** The request `guardarBase` / `guardarCam` sends, if any: none without a
      signed-in user (the guard redirects and throws) or with a blank host. */
  function SaveRequest(d: Device, signedIn: bool, host: Option<string>, port: JsNumber): (c: Option<SaveCall>)
    ensures c.Some? <==> signedIn && NormHost(host) != ""
    ensures c.Some? ==> c.value.telescope == PageTelescope && c.value.kind == KindOf(d)
    ensures c.Some? ==> c.value.host == NormHost(host) && 0 <= c.value.port <= 65535
  {
    ToPortBounds(port);
    if !signedIn then None
    else
      var h := NormHost(host);
      var p := ToPort(port, 80);
      if h == "" then None else Some(SaveCall(PageTelescope, KindOf(d), h, p))
  }

  /** The message the handler leaves: the catch's "unexpected error" text
      without a user, the host warning, or the outcome of the request. */
  function SaveMessage(d: Device, signedIn: bool, host: Option<string>, reply: Fetch): (m: Msg)
    ensures m == Text(Saved(d)) <==> signedIn && NormHost(host) != "" && ApiRequest(reply).error.None?
    ensures m.WithValue? <==> signedIn && NormHost(host) != "" && ApiRequest(reply).error.Some?
  {
    if !signedIn then Text(Unexpected(d))
    else if NormHost(host) == "" then Text(HostRequired(d))
    else
      var result := ApiRequest(reply);
      if result.error.Some? then WithValue("Error: ", result.error.value) else Text(Saved(d))
  }

  /** A request goes out exactly when a user is signed in and the host is not
      blank; it names telescope 1, the board's kind, the normalised host and
      a port in range; a failed request shows the server's error. */
  lemma SaveGuard(d: Device, signedIn: bool, host: Option<string>, port: JsNumber, reply: Fetch)
    ensures var call := SaveRequest(d, signedIn, host, port);
      (call.Some? <==> signedIn && NormHost(host) != "") &&
      (call.Some? ==> call.value == SaveCall(PageTelescope, KindOf(d), NormHost(host), ToPort(port, 80))) &&
      (call.Some? ==> 0 <= call.value.port <= 65535) &&
      (call.Some? && ApiRequest(reply).error.Some? ==>
        SaveMessage(d, signedIn, host, reply) == WithValue("Error: ", ApiRequest(reply).error.value))
  {
    ToPortBounds(port);
  }

  /** `{"ok": True}`, the server's reply to a save. */
  const SavedBody := Obj(map["ok" := Bool(true)])

  /** Every request the page sends passes the server's validation, and the
      stored port is in 1..65535 (a port truncated to 0 is stored as 80). */
  lemma ClientSaveAccepted(d: Device, host: Option<string>, port: JsNumber, now: Time)
    ensures var call := SaveRequest(d, true, host, port);
      call.Some? ==>
        var c := call.value;
        var v := ValidateConfig(Given(c.telescope), Some(c.kind), Some(c.host), PortInt(c.port), now);
        v.Ok? && v.value.host == c.host && v.value.kind == KindOf(d) &&
        1 <= v.value.port <= 65535 && (c.port != 0 ==> v.value.port == c.port)
  {
    var call := SaveRequest(d, true, host, port);
    if call.Some? {
      ToPortBounds(port);
      TrimOfTrimmed(NormHost(host));
      KindTrimmed(d);
      CallValidates(call.value, now);
    }
  }

  /** The server's reply to a save is shown as saved. */
  lemma SaveConfirmed(d: Device, host: Option<string>)
    requires NormHost(host) != ""
    ensures SaveMessage(d, true, host, Responded(200, Json(SavedBody))) == Text(Saved(d))
  {
    SuccessEnvelope(200, SavedBody.fields);
  }

  /** The kinds the page saves have no surrounding whitespace. */
  lemma KindTrimmed(d: Device)
    ensures Trim(KindOf(d)) == KindOf(d)
  {
    if d.Base? {
      assert Trimmed("esp32_base");
      TrimOfTrimmed("esp32_base");
    } else {
      assert Trimmed("esp32_cam");
      TrimOfTrimmed("esp32_cam");
    }
  }

  /** A request with a trimmed non-empty host, a known trimmed kind and a port
      in 0..65535 is stored with that host and kind and a port in 1..65535. */
  lemma CallValidates(c: SaveCall, now: Time)
    requires Trim(c.host) == c.host && c.host != ""
    requires Trim(c.kind) == c.kind && IsKind(c.kind)
    requires 0 <= c.port <= 65535
    ensures var v := ValidateConfig(Given(c.telescope), Some(c.kind), Some(c.host), PortInt(c.port), now);
      v.Ok? && v.value.host == c.host && v.value.kind == c.kind &&
      1 <= v.value.port <= 65535 && (c.port != 0 ==> v.value.port == c.port)
  {
    assert OrEmpty(Some(c.host)) == c.host && OrEmpty(Some(c.kind)) == c.kind;
  }

  // ---------------------------------------------------------------------------
  // Loading

  /** The form's four fields (as the values assigned to them) and its message. */
  datatype Form = Form(baseHost: JsValue, basePort: JsValue, camHost: JsValue, camPort: JsValue, msg: Msg)

  /** The host and port of one board from `data?.<kind>`, when that is truthy:
      a missing host reads as "" and a missing port as 80. */
  function Entry(data: JsValue, d: Device): Option<(JsValue, JsValue)>
  {
    var e := Get(data, KindOf(d));
    if Truthy(e) then Some((Coalesce(Get(e, "host"), Str("")), Coalesce(Get(e, "puerto"), Num(80.0)))) else None
  }

  /** `cargar`: without a user nothing changes (the guard redirects, the catch
      only logs); an error is shown; otherwise each board present in the reply
      fills its two fields and the message is cleared. */
  function LoadOutcome(signedIn: bool, reply: Fetch, form: Form): (r: Form)
    ensures !signedIn ==> r == form
    ensures signedIn && ApiRequest(reply).error.Some? ==>
      r == form.(msg := WithValue("Error cargando configuración: ", ApiRequest(reply).error.value))
  {
    if !signedIn then form
    else
      var result := ApiRequest(reply);
      if result.error.Some? then form.(msg := WithValue("Error cargando configuración: ", result.error.value))
      else
        var base := Entry(result.data, Base);
        var cam := Entry(result.data, Cam);
        var f1 := if base.Some? then form.(baseHost := base.value.0, basePort := base.value.1) else form;
        var f2 := if cam.Some? then f1.(camHost := cam.value.0, camPort := cam.value.1) else f1;
        f2.(msg := Text(""))
  }

  /** The JSON of one endpoint of the getter's map; a zero port is the
      database's null. */
  function EndpointJson(e: Endpoint): JsValue
  {
    Obj(map["host" := Str(e.host), "puerto" := if e.port == 0 then Null else Num(e.port as real)])
  }

  /** The getter's `data` map as JSON. */
  function ViewJson(m: map<string, Endpoint>): JsValue
  {
    Obj(map k | k in m :: EndpointJson(m[k]))
  }

  /** Loading what the server holds for telescope 1 shows each configured
      board's host and port (80 for a null port), and leaves the fields of
      a board without a configuration as they were. */
  lemma LoadShowsStored(rows: seq<ConfigRow>, form: Form, d: Device)
    ensures var view := ConfigView(rows, PageTelescope);
      var r := LoadOutcome(true, Responded(200, Json(DataBody(ViewJson(view)))), form);
      var host := if d.Base? then r.baseHost else r.camHost;
      var port := if d.Base? then r.basePort else r.camPort;
      r.msg == Text("") &&
      (KindOf(d) in view ==>
        host == Str(view[KindOf(d)].host) &&
        port == Num(if view[KindOf(d)].port == 0 then 80.0 else view[KindOf(d)].port as real)) &&
      (KindOf(d) !in view ==>
        host == (if d.Base? then form.baseHost else form.camHost) &&
        port == (if d.Base? then form.basePort else form.camPort))
  {
    var view := ConfigView(rows, PageTelescope);
    var data := ViewJson(view);
    DataRoundTrip(200, data);
    EntryOfView(view, Base);
    EntryOfView(view, Cam);
  }

  /** A board's entry in the getter's JSON is its stored host and port, with
      80 for a null port. */
  lemma EntryOfView(view: map<string, Endpoint>, d: Device)
    ensures Entry(ViewJson(view), d) ==
      if KindOf(d) in view then
        Some((Str(view[KindOf(d)].host), Num(if view[KindOf(d)].port == 0 then 80.0 else view[KindOf(d)].port as real)))
      else None
  {
    var data := ViewJson(view);
    if KindOf(d) in view {
      var e := view[KindOf(d)];
      assert Get(data, KindOf(d)) == EndpointJson(e);
      assert Get(EndpointJson(e), "host") == Str(e.host);
    } else {
      assert Get(data, KindOf(d)) == Undefined;
    }
  }
}
