/** The dome control page (domo_control.js): the page state kept between
    clicks (the current session, the current observation, the two buttons,
    the photo download link) and the three flows that change it: the periodic
    availability check, "Apuntar" (aim and photograph) and "Finalizar".

    Every request a flow makes is recorded, in order, in a call log; the reply
    each request gets is an input of the flow. The pure functions
    `EvaluateOutcome`, `AimOutcome` and `FinishOutcome` give the page state
    after each flow, and the `DomeControl` class runs the flows step by step. */
module Dome {
  import opened Common
  import Api
  import Backend

  /** Pause between pointing the dome and taking the photo, in milliseconds. */
  const SettleMs: nat := 8000

  // ---------------------------------------------------------------------------
  // Values the page reads

  /** A coordinate in the controller's JSON reply: missing (null/undefined), a
      number, a string that `Number()` reads as a number, or anything else. */
  datatype Reading = Missing | Number(v: real) | NumericText(t: real) | NonNumeric

  /** `Number(x)` for a reading that is not missing; None stands for NaN. */
  function NumberOf(x: Reading): Option<real>
  {
    match x
    case Number(v) => Some(v)
    case NumericText(t) => Some(t)
    case _ => None
  }

  /** The fields the page reads from a session record (None = undefined); the
      "no row" reply of the session query reaches the page as a record with
      none of them. */
  datatype SessionView = SessionView(id: Option<nat>, owner: Option<nat>, available: Option<bool>)

  /** The id fields of an observation record (None = null/undefined). */
  datatype ObsRecord = ObsRecord(idObservacion: Option<string>, id: Option<string>, idObs: Option<string>)

  /** The telescope record chosen at start-up, with its administrative `estado`. */
  datatype TelescopeView = NoTelescope | Telescope(state: Option<string>)

  /** A configuration entry of the config getter (None = null/undefined). */
  datatype EndpointCfg = EndpointCfg(host: Option<string>, port: Option<int>)

  /** Reply to creating the "en curso" observation: an error, a list of rows,
      or one row. */
  datatype CreateReply = CreateFailed | CreatedList(rows: seq<ObsRecord>) | Created(row: ObsRecord)

  /** Reply of the controller's `/apuntar`: any failure (no answer, non-2xx,
      a body that is not a JSON object), or its azimuth, altitude and `mueve`. */
  datatype ControllerReply = ControllerFailed | ControllerOk(azimuth: Reading, altitude: Reading, moves: Option<bool>)

  /** Reply of finalizing: the error message, or the reply's
      `id_observacion` and `warning` (None = absent). */
  datatype FinishReply = FinishFailed(message: string) | FinishDone(idObservacion: Option<string>, warning: Option<string>)

  /** The requests a flow makes, in order. `Reevaluate` marks the nested
      availability check the finish flow awaits. */
  datatype Call =
    | FetchStatus
    | FetchSession
    | FetchObservation(session: Option<nat>)
    | MarkAvailable(session: Option<nat>, flag: bool)
    | CreateObservation(session: Option<nat>, name: string)
    | Point(name: string)
    | SaveCoords(observation: string, azimuth: Reading, altitude: Reading)
    | Settle(ms: nat)
    | TriggerCamera
    | FinishObservation(session: Option<nat>, target: Option<string>)
    | Reevaluate

  /** The page state: who is logged in, the session and observation it holds,
      the two hardware base URLs, the buttons, the download link and the log. */
  datatype Ui = Ui(
    user: Option<nat>,
    session: Option<SessionView>,
    current: Option<ObsRecord>,
    controller: Option<string>,
    camera: Option<string>,
    aimEnabled: bool,
    finishEnabled: bool,
    download: Option<string>,
    calls: seq<Call>)

  // ---------------------------------------------------------------------------
  // Small decisions

  /** `a || b` on nullable ids. */
  function OrId(a: Option<string>, b: Option<string>): Option<string>
  {
    if Present(a) then a else b
  }

  /** `a ?? b` on nullable ids. */
  function CoalesceId(a: Option<string>, b: Option<string>): Option<string>
  {
    if a.Some? then a else b
  }

  /** The id the aim flow writes back into the created record:
      `id_observacion || id_obs || id`. */
  function CreatedId(o: ObsRecord): (r: Option<string>)
    ensures Present(r) <==> Present(o.idObservacion) || Present(o.idObs) || Present(o.id)
    ensures Present(o.idObservacion) ==> r == o.idObservacion
  {
    OrId(o.idObservacion, OrId(o.idObs, o.id))
  }

  /** The id the finish flow sends: `id_observacion ?? id ?? id_obs`, sent
      only when truthy. An empty `id_observacion` hides the other two. */
  function PayloadId(cur: Option<ObsRecord>): (r: Option<string>)
    ensures r.None? || Present(r)
    ensures r.Some? ==> cur.Some? && r in {cur.value.idObservacion, cur.value.id, cur.value.idObs}
    ensures cur.Some? && Present(cur.value.idObservacion) ==> r == cur.value.idObservacion
    ensures cur.Some? && cur.value.idObservacion == Some("") ==> r.None?
  {
    var id := if cur.None? then None else CoalesceId(cur.value.idObservacion, CoalesceId(cur.value.id, cur.value.idObs));
    if Present(id) then id else None
  }

  /** Whether a session record belongs to the logged-in user. */
  predicate IsOwner(s: SessionView, user: Option<nat>)
  {
    user.Some? && s.owner == user
  }

  /** Whether a finish error means "there was nothing to finish": its
      lower-cased text mentions "no hay observación" (with or without accent). */
  predicate FreesSession(message: string)
  {
    Contains(Lower(message), "no hay observación") || Contains(Lower(message), "no hay observacion")
  }

  /** The photo download URL of an observation, with `id` spliced in as
      given (the history table does this with the raw id). */
  function PhotoUrl(id: string): string
  {
    "/api/observacion/" + id + "/foto"
  }

  /** The characters `encodeURIComponent` leaves as they are. */
  predicate Unreserved(c: char)
  {
    ('A' <= c <= 'Z') || ('a' <= c <= 'z') || ('0' <= c <= '9') ||
    c == '-' || c == '_' || c == '.' || c == '!' || c == '~' || c == '*' || c == '\'' || c == '(' || c == ')'
  }

  /** How many bytes a UTF-8 sequence with this first byte has (0: none can
      start with it). */
  function LeadLength(b: int): nat
  {
    if 0 <= b < 0x80 then 1
    else if 0xC0 <= b < 0xE0 then 2
    else if 0xE0 <= b < 0xF0 then 3
    else if 0xF0 <= b < 0xF8 then 4
    else 0
  }

  /** The UTF-8 encoding of a code point: one byte below 0x80, two below
      0x800, three below 0x10000, four above; the first byte announces the
      length. */
  function Utf8(n: nat): (r: seq<nat>)
    requires n < 0x11_0000
    ensures 1 <= |r| <= 4
    ensures forall i :: 0 <= i < |r| ==> r[i] < 256
    ensures (|r| == 1) <==> n < 0x80
    ensures (|r| == 2) <==> 0x80 <= n < 0x800
    ensures (|r| == 3) <==> 0x800 <= n < 0x1_0000
    ensures |r| == 1 ==> r[0] == n
    ensures LeadLength(r[0]) == |r|
  {
    var q1 := n / 64;
    var q2 := q1 / 64;
    if n < 0x80 then [n]
    else if n < 0x800 then [0xC0 + q1, 0x80 + n % 64]
    else if n < 0x1_0000 then [0xE0 + q2, 0x80 + q1 % 64, 0x80 + n % 64]
    else [0xF0 + q2 / 64, 0x80 + q2 % 64, 0x80 + q1 % 64, 0x80 + n % 64]
  }

  /** The code point a 1- to 4-byte UTF-8 sequence stands for. */
  function Utf8Value(b: seq<int>): int
    requires 1 <= |b| <= 4
  {
    if |b| == 1 then b[0]
    else if |b| == 2 then (b[0] - 0xC0) * 64 + (b[1] - 0x80)
    else if |b| == 3 then ((b[0] - 0xE0) * 64 + (b[1] - 0x80)) * 64 + (b[2] - 0x80)
    else (((b[0] - 0xF0) * 64 + (b[1] - 0x80)) * 64 + (b[2] - 0x80)) * 64 + (b[3] - 0x80)
  }

  /** Decoding the UTF-8 bytes gives the code point back, and every byte after
      the first is a continuation byte `10xxxxxx`. */
  lemma Utf8RoundTrip(n: nat)
    requires n < 0x11_0000
    ensures Utf8Value(Utf8(n)) == n
    ensures forall i :: 1 <= i < |Utf8(n)| ==> 0x80 <= Utf8(n)[i] < 0xC0
  {
    var q1 := n / 64;
    var q2 := q1 / 64;
    assert n == q1 * 64 + n % 64;
    assert q1 == q2 * 64 + q1 % 64;
    assert q2 == (q2 / 64) * 64 + q2 % 64;
  }

  /** An upper-case hexadecimal digit. */
  function HexDigit(d: nat): (c: char)
    requires d < 16
    ensures Unreserved(c)
    ensures d < 10 ==> c as int == '0' as int + d
    ensures d >= 10 ==> c as int == 'A' as int + (d - 10)
  {
    if d < 10 then DigitChar(d) else ('A' as int + (d - 10)) as char
  }

  /** The value of a hexadecimal digit, in either case. */
  function HexValue(c: char): Option<nat>
  {
    if '0' <= c <= '9' then Some(c as int - '0' as int)
    else if 'A' <= c <= 'F' then Some(c as int - 'A' as int + 10)
    else if 'a' <= c <= 'f' then Some(c as int - 'a' as int + 10)
    else None
  }

  /** Reading a digit back gives its value. */
  lemma HexRoundTrip(d: nat)
    requires d < 16
    ensures HexValue(HexDigit(d)) == Some(d)
  {
  }

  /** `%XY` for each byte, `XY` its two upper-case hexadecimal digits. */
  function Percents(bytes: seq<nat>): (r: string)
    requires forall i :: 0 <= i < |bytes| ==> bytes[i] < 256
    ensures |r| == 3 * |bytes|
    ensures forall i :: 0 <= i < |r| ==> Unreserved(r[i]) || r[i] == '%'
    ensures EscapesOf(r, bytes)
  {
    if bytes == [] then ""
    else
      var rest := Percents(bytes[1..]);
      var head := ['%', HexDigit(bytes[0] / 16), HexDigit(bytes[0] % 16)];
      EscapesShift(head, rest, bytes);
      head + rest
  }

  /** Whether `r` holds, at `3 * k`, the escape of `bytes[k]` for every `k`. */
  predicate EscapesOf(r: string, bytes: seq<nat>)
    requires forall i :: 0 <= i < |bytes| ==> bytes[i] < 256
    requires |r| == 3 * |bytes|
  {
    forall k :: 0 <= k < |bytes| ==>
      r[3 * k] == '%' && r[3 * k + 1] == HexDigit(bytes[k] / 16) && r[3 * k + 2] == HexDigit(bytes[k] % 16)
  }

  /** The escape of the first byte followed by the escapes of the others. */
  lemma EscapesShift(head: string, rest: string, bytes: seq<nat>)
    requires |bytes| > 0 && forall i :: 0 <= i < |bytes| ==> bytes[i] < 256
    requires head == ['%', HexDigit(bytes[0] / 16), HexDigit(bytes[0] % 16)]
    requires |rest| == 3 * (|bytes| - 1) && EscapesOf(rest, bytes[1..])
    ensures EscapesOf(head + rest, bytes)
  {
    var r := head + rest;
    forall k | 0 <= k < |bytes|
      ensures r[3 * k] == '%' && r[3 * k + 1] == HexDigit(bytes[k] / 16) && r[3 * k + 2] == HexDigit(bytes[k] % 16)
    {
      if k > 0 {
        var m := k - 1;
        assert bytes[1..][m] == bytes[k];
        assert r[3 * k] == rest[3 * m] && r[3 * k + 1] == rest[3 * m + 1] && r[3 * k + 2] == rest[3 * m + 2];
      }
    }
  }

  /** JavaScript's `encodeURIComponent`: unreserved characters are kept, every
      other character becomes the `%XY` escapes of its UTF-8 bytes. */
  function EncodeUriComponent(s: string): (r: string)
    ensures |s| <= |r|
    ensures forall i :: 0 <= i < |r| ==> Unreserved(r[i]) || r[i] == '%'
    ensures |r| == |s| <==> forall i :: 0 <= i < |s| ==> Unreserved(s[i])
  {
    if s == [] then ""
    else EncodeChar(s[0]) + EncodeUriComponent(s[1..])
  }

  /** The encoding of one character. */
  function EncodeChar(c: char): (r: string)
    ensures Unreserved(c) ==> r == [c]
    ensures !Unreserved(c) ==> |r| >= 3
    ensures forall i :: 0 <= i < |r| ==> Unreserved(r[i]) || r[i] == '%'
  {
    if Unreserved(c) then [c] else Percents(Utf8(c as int))
  }

  /** A text of unreserved characters, such as a UUID, is its own encoding. */
  lemma {:induction false} EncodeUnreserved(s: string)
    requires forall i :: 0 <= i < |s| ==> Unreserved(s[i])
    ensures EncodeUriComponent(s) == s
  {
    if s != [] {
      EncodeUnreserved(s[1..]);
      assert s == [s[0]] + s[1..];
    }
  }

  /** The byte written as `%XY` at the start of `t`, if it is one. */
  function EscapedByte(t: string): (r: Option<nat>)
    ensures r.Some? ==> r.value < 256
  {
    if |t| < 3 || t[0] != '%' || HexValue(t[1]).None? || HexValue(t[2]).None? then None
    else Some(16 * HexValue(t[1]).value + HexValue(t[2]).value)
  }

  /** The `k` bytes escaped at the start of `t`, if there are that many. */
  function EscapedBytes(t: string, k: nat): (r: Option<seq<nat>>)
    ensures r.Some? ==> |r.value| == k && 3 * k <= |t|
    ensures r.Some? ==> forall i :: 0 <= i < k ==> r.value[i] < 256
  {
    if k == 0 then Some([])
    else
      var b := EscapedByte(t);
      if b.None? then None
      else
        var rest := EscapedBytes(t[3..], k - 1);
        if rest.None? then None else Some([b.value] + rest.value)
  }

  /** JavaScript's `decodeURIComponent`: every `%XY` run that is the UTF-8
      encoding of a character turns back into it; None where it throws
      `URIError` (a cut escape, a bad hex digit, bytes that are not UTF-8). */
  function PercentDecode(t: string): Option<string>
    decreases |t|
  {
    if t == [] then Some("")
    else if t[0] != '%' then
      var rest := PercentDecode(t[1..]);
      if rest.None? then None else Some([t[0]] + rest.value)
    else
      var lead := EscapedByte(t);
      if lead.None? || LeadLength(lead.value) == 0 then None
      else
        var bs := EscapedBytes(t, LeadLength(lead.value));
        if bs.None? then None
        else
          var n := Utf8Value(bs.value);
          if !(0 <= n < 0xD800 || 0xE000 <= n < 0x11_0000) || Utf8(n) != bs.value then None
          else
            var rest := PercentDecode(t[3 * |bs.value|..]);
            if rest.None? then None else Some([n as char] + rest.value)
  }

  /** The bytes written by `Percents` read back from its output. */
  lemma {:induction false} EscapedPercents(bytes: seq<nat>, rest: string)
    requires forall i :: 0 <= i < |bytes| ==> bytes[i] < 256
    ensures EscapedBytes(Percents(bytes) + rest, |bytes|) == Some(bytes)
  {
    if bytes != [] {
      var b := bytes[0];
      var tail := Percents(bytes[1..]) + rest;
      var t := ['%', HexDigit(b / 16), HexDigit(b % 16)] + tail;
      assert Percents(bytes) + rest == t;
      EscapedHead(b, tail);
      EscapedPercents(bytes[1..], rest);
      assert [b] + bytes[1..] == bytes;
    }
  }

  /** The escape of one byte in front of a text reads back as that byte. */
  lemma EscapedHead(b: nat, tail: string)
    requires b < 256
    ensures var t := ['%', HexDigit(b / 16), HexDigit(b % 16)] + tail;
      EscapedByte(t) == Some(b) && t[3..] == tail
  {
    HexRoundTrip(b / 16);
    HexRoundTrip(b % 16);
    var t := ['%', HexDigit(b / 16), HexDigit(b % 16)] + tail;
    assert t[0] == '%' && t[1] == HexDigit(b / 16) && t[2] == HexDigit(b % 16);
  }

  /** Decoding one encoded character in front of the rest of a text. */
  lemma DecodeChar(c: char, rest: string)
    ensures PercentDecode(EncodeChar(c) + rest) ==
      (if PercentDecode(rest).None? then None else Some([c] + PercentDecode(rest).value))
  {
    var t := EncodeChar(c) + rest;
    if Unreserved(c) {
      assert t[0] == c && c != '%' && t[1..] == rest;
    } else {
      var n := c as int;
      var bs := Utf8(n);
      assert EncodeChar(c) == Percents(bs);
      assert t[0] == '%' && t[1] == HexDigit(bs[0] / 16) && t[2] == HexDigit(bs[0] % 16);
      HexRoundTrip(bs[0] / 16);
      HexRoundTrip(bs[0] % 16);
      assert EscapedByte(t) == Some(bs[0]);
      EscapedPercents(bs, rest);
      Utf8RoundTrip(n);
      assert t[3 * |bs|..] == rest;
      assert (n as char) == c;
    }
  }

  /** Decoding undoes the encoding, so different ids give different links. */
  lemma {:induction false} EncodeRoundTrip(s: string)
    ensures PercentDecode(EncodeUriComponent(s)) == Some(s)
  {
    if s != [] {
      EncodeRoundTrip(s[1..]);
      DecodeChar(s[0], EncodeUriComponent(s[1..]));
      assert [s[0]] + s[1..] == s;
    }
  }

  /** The link the finish flow offers: the id encoded as a URL component. */
  function FinishPhotoUrl(id: string): string
  {
    PhotoUrl(EncodeUriComponent(id))
  }

  /** Whatever the id, the finish link stays one path segment under
      `/api/observacion/`: the encoded id holds no `/`, `?` or `#`. */
  lemma FinishLinkOneSegment(id: string)
    ensures var e := EncodeUriComponent(id);
      FinishPhotoUrl(id) == "/api/observacion/" + e + "/foto" && '/' !in e && '?' !in e && '#' !in e
  {
    NoDelimiters(EncodeUriComponent(id));
  }

  /** A text of unreserved characters and `%` holds no `/`, `?` or `#`. */
  lemma NoDelimiters(e: string)
    requires forall i :: 0 <= i < |e| ==> Unreserved(e[i]) || e[i] == '%'
    ensures '/' !in e && '?' !in e && '#' !in e
  {
  }

  /** The segment of the finish link decodes to the id that was finished, so
      two different ids never share a link. */
  lemma FinishLinkNamesId(id: string, other: string)
    ensures PercentDecode(EncodeUriComponent(id)) == Some(id)
    ensures FinishPhotoUrl(id) == FinishPhotoUrl(other) ==> id == other
  {
    EncodeRoundTrip(id);
    EncodeRoundTrip(other);
    if FinishPhotoUrl(id) == FinishPhotoUrl(other) {
      var e, f := EncodeUriComponent(id), EncodeUriComponent(other);
      var pre := "/api/observacion/";
      assert |e| == |f|;
      assert e == FinishPhotoUrl(id)[|pre|..|pre| + |e|];
      assert f == FinishPhotoUrl(other)[|pre|..|pre| + |f|];
    }
  }

  /** For an id of unreserved characters (a UUID, say) the finish link and the
      history link agree; for any other id the finish link is longer. */
  lemma FinishLinkMatchesHistory(id: string)
    ensures FinishPhotoUrl(id) == PhotoUrl(id) <==> forall i :: 0 <= i < |id| ==> Unreserved(id[i])
  {
    if forall i :: 0 <= i < |id| ==> Unreserved(id[i]) {
      EncodeUnreserved(id);
    } else {
      assert |EncodeUriComponent(id)| > |id|;
    }
  }

  // ---------------------------------------------------------------------------
  // The object label

  /** The words of `s`: its maximal runs of non-whitespace characters, in
      order (`s.split(/\s+/)` without the empty pieces). */
  function Words(s: string): (w: seq<string>)
    ensures s != [] && !IsSpace(s[0]) ==> |w| > 0
    decreases |s|
  {
    if s == [] then []
    else
      var rest := Words(s[1..]);
      if IsSpace(s[0]) then rest
      else if |s| > 1 && !IsSpace(s[1]) then [[s[0]] + rest[0]] + rest[1..]
      else [[s[0]]] + rest
  }

  /** Leading whitespace separates no words. */
  lemma {:induction false} WordsTrimStart(s: string)
    ensures Words(TrimStart(s)) == Words(s)
    decreases |s|
  {
    if s != [] && IsSpace(s[0]) {
      WordsTrimStart(s[1..]);
    }
  }

  /** Trailing whitespace separates no words. */
  lemma {:induction false} WordsSpaceTail(s: string, blank: string)
    requires forall i :: 0 <= i < |blank| ==> IsSpace(blank[i])
    ensures Words(s + blank) == Words(s)
    decreases |s| + |blank|
  {
    if s == [] {
      if blank != [] {
        assert ([] + blank)[1..] == [] + blank[1..];
        WordsSpaceTail([], blank[1..]);
      }
    } else {
      assert (s + blank)[1..] == s[1..] + blank;
      WordsSpaceTail(s[1..], blank);
      if |s| == 1 && blank != [] {
        assert (s + blank)[1] == blank[0];
      }
    }
  }

  lemma {:induction false} TrimIsEnds(s: string)
    ensures Trim(s) == TrimEnd(TrimStart(s))
  {
  }

  /** Trailing whitespace separates no words, as `TrimEnd` drops it. */
  lemma {:induction false} WordsTrimEnd(t: string)
    ensures Words(TrimEnd(t)) == Words(t)
  {
    var e := TrimEnd(t);
    var blank := t[|e|..];
    assert t == e + blank;
    forall i | 0 <= i < |blank|
      ensures IsSpace(blank[i])
    {
      assert blank[i] == t[|e| + i];
    }
    WordsSpaceTail(e, blank);
  }

  /** Trimming keeps the words. */
  lemma {:induction false} WordsTrim(s: string)
    ensures Words(Trim(s)) == Words(s)
  {
    WordsTrimStart(s);
    WordsTrimEnd(TrimStart(s));
    TrimIsEnds(s);
  }

  /** `replace(/\s+/g, " ")`: every run of whitespace becomes one space, so the
      words stay as they are and the ends stay whitespace or not. */
  function Collapse(s: string): (r: string)
    ensures |r| <= |s|
    ensures r == [] <==> s == []
    ensures s != [] ==> (IsSpace(r[0]) <==> IsSpace(s[0]))
    ensures Words(r) == Words(s)
    decreases |s|
  {
    if s == [] then []
    else if IsSpace(s[0]) then
      var c := Collapse(TrimStart(s[1..]));
      WordsTrimStart(s[1..]);
      assert (" " + c)[1..] == c;
      " " + c
    else
      var c := Collapse(s[1..]);
      assert ([s[0]] + c)[1..] == c;
      [s[0]] + c
  }

  /** Every whitespace character of `s` is a plain space. */
  predicate BlanksOnly(s: string)
  {
    forall i :: 0 <= i < |s| && IsSpace(s[i]) ==> s[i] == ' '
  }

  /** No two whitespace characters of `s` are adjacent. */
  predicate NoDoubleSpace(s: string)
  {
    forall i :: 0 <= i < |s| - 1 ==> !(IsSpace(s[i]) && IsSpace(s[i + 1]))
  }

  /** The only whitespace left is single spaces, and the collapse starts and
      ends with whitespace exactly when the original does. */
  lemma {:induction false} CollapseShape(s: string)
    ensures BlanksOnly(Collapse(s)) && NoDoubleSpace(Collapse(s))
    ensures s != [] ==> (IsSpace(Collapse(s)[0]) <==> IsSpace(s[0]))
    ensures s != [] ==> (IsSpace(Collapse(s)[|Collapse(s)| - 1]) <==> IsSpace(s[|s| - 1]))
    decreases |s|
  {
    if s != [] {
      var t := if IsSpace(s[0]) then TrimStart(s[1..]) else s[1..];
      var c := Collapse(t);
      var r := Collapse(s);
      CollapseShape(t);
      assert r == [r[0]] + c;
      if c == [] {
        if IsSpace(s[0]) && |s| > 1 {
          assert IsSpace(s[1..][|s| - 2]);
        }
      } else {
        assert t[|t| - 1] == s[|s| - 1];
        assert IsSpace(s[0]) ==> !IsSpace(c[0]);
        CollapseStep(r, c);
      }
    }
  }

  /** One character in front of a collapsed string whose first character is
      not whitespace when the new one is. */
  lemma CollapseStep(r: string, c: string)
    requires c != [] && |r| == |c| + 1 && r[1..] == c
    requires IsSpace(r[0]) ==> r[0] == ' ' && !IsSpace(c[0])
    requires BlanksOnly(c) && NoDoubleSpace(c)
    ensures BlanksOnly(r) && NoDoubleSpace(r)
    ensures r[|r| - 1] == c[|c| - 1]
  {
    forall i | 1 <= i < |r| ensures r[i] == c[i - 1] {
    }
    forall i | 0 <= i < |r| - 1 ensures !(IsSpace(r[i]) && IsSpace(r[i + 1])) {
      assert r[i + 1] == c[i];
      if i > 0 {
        assert r[i] == c[i - 1];
      }
    }
  }

  /** The label sent for the object: trimmed, with inner whitespace runs
      collapsed to single spaces. */
  function NormalizeLabel(raw: string): (r: string)
    ensures r == "" <==> Trim(raw) == ""
    ensures Trimmed(r)
    ensures BlanksOnly(r) && NoDoubleSpace(r)
  {
    var t := Trim(raw);
    CollapseTrimmed(t);
    Collapse(t)
  }

  /** The label keeps the words of what was typed, in order. */
  lemma NormalizeLabelWords(raw: string)
    ensures Words(NormalizeLabel(raw)) == Words(raw)
  {
    WordsTrim(raw);
  }

  /** Collapsing a trimmed string leaves it trimmed. */
  lemma CollapseTrimmed(t: string)
    requires Trimmed(t)
    ensures Trimmed(Collapse(t)) && BlanksOnly(Collapse(t)) && NoDoubleSpace(Collapse(t))
  {
    CollapseShape(t);
  }

  /** A string whose only whitespace is single spaces is its own collapse. */
  lemma {:induction false} CollapseFixed(s: string)
    requires BlanksOnly(s) && NoDoubleSpace(s)
    ensures Collapse(s) == s
    decreases |s|
  {
    if s != [] {
      CollapseFixed(s[1..]);
      if IsSpace(s[0]) {
        assert TrimStart(s[1..]) == s[1..];
      }
    }
  }

  /** Normalizing a label twice is normalizing it once. */
  lemma NormalizeIdempotent(raw: string)
    ensures NormalizeLabel(NormalizeLabel(raw)) == NormalizeLabel(raw)
  {
    var l := NormalizeLabel(raw);
    TrimOfTrimmed(l);
    CollapseFixed(l);
  }

  /** A label the page accepts is one the server accepts: never empty. */
  lemma LabelPassesServerCheck(raw: string)
    requires Trim(raw) != ""
    ensures NormalizeLabel(raw) != ""
  {
  }

  // ---------------------------------------------------------------------------
  // Start-up

  /** `http://${host}:${puerto ?? 80}`: unlike the server, a port of 0 is kept. */
  function EndpointUrl(host: string, port: Option<int>): (r: string)
    ensures |r| > |host| + 8 && r[..|host| + 8] == "http://" + host + ":"
    ensures port.None? ==> r == "http://" + host + ":80"
  {
    assert IntToString(80) == NatToString(8) + [DigitChar(0)] == "80";
    "http://" + host + ":" + IntToString(if port.Some? then port.value else 80)
  }

  /** The controller base: required, with a non-empty host. */
  function ControllerBase(base: Option<EndpointCfg>): (r: Option<string>)
    ensures r.Some? <==> base.Some? && Present(base.value.host)
    ensures r.Some? ==> r.value == EndpointUrl(base.value.host.value, base.value.port)
  {
    if base.Some? && Present(base.value.host) then Some(EndpointUrl(base.value.host.value, base.value.port)) else None
  }

  /** A missing port defaults to 80; a present one is used as it is. */
  lemma EndpointPort(host: string, port: int)
    ensures EndpointUrl(host, None) == EndpointUrl(host, Some(80))
    ensures EndpointUrl(host, Some(port)) == "http://" + host + ":" + IntToString(port)
  {
  }

  // ---------------------------------------------------------------------------
  // The availability check (evaluarDisponibilidad)

  function Disabled(st: Ui): Ui
  {
    st.(aimEnabled := false, finishEnabled := false)
  }

  /** The page after one availability check, given the telescope record, the
      hardware status, and the replies of the session and observation queries
      (None = null data). The checks run in the source's order: telescope,
      administrative state (an absent or empty state passes), hardware,
      session, owner, busy flag. */
  function EvaluateOutcome(st: Ui, telescope: TelescopeView, online: bool, sessionReply: Option<SessionView>, obsReply: Option<ObsRecord>): (r: Ui)
    ensures !(r.aimEnabled && r.finishEnabled)
    ensures r.user == st.user && r.controller == st.controller && r.camera == st.camera && r.download == st.download
  {
    if telescope.NoTelescope? then Disabled(st)
    else if Present(telescope.state) && telescope.state.value != "disponible" then Disabled(st)
    else if st.controller.None? then Disabled(st)
    else
      var probed := st.(calls := st.calls + [FetchStatus]);
      if !online then Disabled(probed)
      else
        var fetched := probed.(session := sessionReply, calls := probed.calls + [FetchSession]);
        if sessionReply.None? || !IsOwner(sessionReply.value, st.user) then Disabled(fetched).(current := None)
        else if sessionReply.value.available != Some(true) then
          fetched.(aimEnabled := false, finishEnabled := true, current := obsReply,
                   calls := fetched.calls + [FetchObservation(sessionReply.value.id)])
        else fetched.(aimEnabled := true, finishEnabled := false, current := None)
  }

  /** Whether the telescope passes the administrative and hardware checks. */
  predicate Reachable(st: Ui, telescope: TelescopeView, online: bool)
  {
    telescope.Telescope? && !(Present(telescope.state) && telescope.state.value != "disponible") &&
    st.controller.Some? && online
  }

  /** Aiming is enabled exactly for the owner of a free session on a reachable
      telescope; finishing exactly for the owner of a busy one; never both. */
  lemma EvaluateDecision(st: Ui, telescope: TelescopeView, online: bool, sessionReply: Option<SessionView>, obsReply: Option<ObsRecord>)
    ensures var r := EvaluateOutcome(st, telescope, online, sessionReply, obsReply);
      var owned := sessionReply.Some? && IsOwner(sessionReply.value, st.user);
      (r.aimEnabled <==> Reachable(st, telescope, online) && owned && sessionReply.value.available == Some(true)) &&
      (r.finishEnabled <==> Reachable(st, telescope, online) && owned && sessionReply.value.available != Some(true)) &&
      !(r.aimEnabled && r.finishEnabled) &&
      (r.finishEnabled ==> r.current == obsReply) && (r.aimEnabled ==> r.current.None?)
  {
  }

  /** The check only reads: it appends queries to the log and changes only the
      buttons, the session and the observation it holds. */
  lemma EvaluateOnlyQueries(st: Ui, telescope: TelescopeView, online: bool, sessionReply: Option<SessionView>, obsReply: Option<ObsRecord>)
    ensures var r := EvaluateOutcome(st, telescope, online, sessionReply, obsReply);
      |st.calls| <= |r.calls| && r.calls[..|st.calls|] == st.calls &&
      (forall c :: c in r.calls[|st.calls|..] ==> IsQuery(c)) &&
      r.user == st.user && r.controller == st.controller && r.camera == st.camera && r.download == st.download
  {
    var r := EvaluateOutcome(st, telescope, online, sessionReply, obsReply);
    var q := EvaluateQueries(st, telescope, online, sessionReply);
    EvaluateLog(st, telescope, online, sessionReply, obsReply);
    assert r.calls[|st.calls|..] == q;
  }

  /** The calls that only read. */
  predicate IsQuery(c: Call)
  {
    c.FetchStatus? || c.FetchSession? || c.FetchObservation?
  }

  /** The queries one availability check sends, in order. */
  function EvaluateQueries(st: Ui, telescope: TelescopeView, online: bool, sessionReply: Option<SessionView>): (q: seq<Call>)
    ensures forall c :: c in q ==> IsQuery(c)
  {
    if telescope.NoTelescope? || (Present(telescope.state) && telescope.state.value != "disponible") || st.controller.None? then []
    else if !online then [FetchStatus]
    else if sessionReply.None? || !IsOwner(sessionReply.value, st.user) || sessionReply.value.available == Some(true) then [FetchStatus, FetchSession]
    else [FetchStatus, FetchSession, FetchObservation(sessionReply.value.id)]
  }

  lemma EvaluateLog(st: Ui, telescope: TelescopeView, online: bool, sessionReply: Option<SessionView>, obsReply: Option<ObsRecord>)
    ensures EvaluateOutcome(st, telescope, online, sessionReply, obsReply).calls == st.calls + EvaluateQueries(st, telescope, online, sessionReply)
  {
    if telescope.NoTelescope? || (Present(telescope.state) && telescope.state.value != "disponible") || st.controller.None? {
      assert EvaluateQueries(st, telescope, online, sessionReply) == [];
    } else if !online {
      assert st.calls + [FetchStatus] == st.calls + EvaluateQueries(st, telescope, online, sessionReply);
    } else if sessionReply.None? || !IsOwner(sessionReply.value, st.user) || sessionReply.value.available == Some(true) {
      assert st.calls + [FetchStatus] + [FetchSession] == st.calls + EvaluateQueries(st, telescope, online, sessionReply);
    } else {
      assert st.calls + [FetchStatus] + [FetchSession] + [FetchObservation(sessionReply.value.id)] ==
        st.calls + EvaluateQueries(st, telescope, online, sessionReply);
    }
  }

  // ---------------------------------------------------------------------------
  // Aim and photograph (the "Apuntar" click)

  /** The rest of the aim flow once the observation record is known: the
      record becomes the current observation, the calls of `TailCalls` go out,
      and the buttons follow from whether the photo was reached. */
  function AfterCreate(busy: Ui, sid: Option<nat>, name: string, row: ObsRecord, ctrl: ControllerReply): (r: Ui)
    ensures |busy.calls| < |r.calls| && r.calls[..|busy.calls| + 1] == busy.calls + [Point(name)]
    ensures r.user == busy.user && r.session == busy.session && r.download == busy.download
    ensures r.controller == busy.controller && r.camera == busy.camera
  {
    var t := TailCalls(sid, name, row, ctrl, busy.camera.Some?);
    assert (busy.calls + t)[..|busy.calls| + 1] == busy.calls + [t[0]];
    busy.(current := Some(row.(idObservacion := CreatedId(row))),
          calls := busy.calls + t,
          aimEnabled := busy.aimEnabled || !Shoots(ctrl),
          finishEnabled := busy.finishEnabled || Shoots(ctrl))
  }

  /** `AfterCreate` once the controller has answered, field by field. */
  lemma AfterCreateAnswered(busy: Ui, sid: Option<nat>, name: string, row: ObsRecord, az: Reading, alt: Reading, moves: Option<bool>)
    ensures AfterCreate(busy, sid, name, row, ControllerOk(az, alt, moves)) ==
      busy.(current := Some(row.(idObservacion := CreatedId(row))),
            calls := busy.calls + ([Point(name)] + CoordinateCalls(sid, CreatedId(row), az, alt, busy.camera.Some?)),
            aimEnabled := busy.aimEnabled || !ShootsAt(az, alt),
            finishEnabled := busy.finishEnabled || ShootsAt(az, alt))
  {
  }

  /** The calls of the tail of the aim flow: point the dome; with the
      controller unreachable, free the session; otherwise save the
      coordinates when the record has an id and both came back, stop (the
      session staying busy) without an altitude at or above the horizon, free
      the session when a coordinate is not a number (formatting it throws),
      else wait to settle and trigger the camera when there is one. */
  function TailCalls(sid: Option<nat>, name: string, row: ObsRecord, ctrl: ControllerReply, camera: bool): (t: seq<Call>)
    ensures |t| >= 1 && t[0] == Point(name)
  {
    match ctrl
    case ControllerFailed => [Point(name)] + [MarkAvailable(sid, true)]
    case ControllerOk(az, alt, _) => [Point(name)] + CoordinateCalls(sid, CreatedId(row), az, alt, camera)
  }

  /** The calls after the controller answered with coordinates. */
  function CoordinateCalls(sid: Option<nat>, id: Option<string>, az: Reading, alt: Reading, camera: bool): seq<Call>
  {
    var saved := if Present(id) && !az.Missing? && !alt.Missing? then [SaveCoords(id.value, az, alt)] else [];
    if alt.Missing? || NumberOf(alt).None? || NumberOf(alt).value < 0.0 then saved
    else if !az.Number? || !alt.Number? then saved + [MarkAvailable(sid, true)]
    else
      var settled := saved + [Settle(SettleMs)];
      if camera then settled + [TriggerCamera] else settled
  }

  /** The coordinates are saved first, exactly when the record has an id and
      both came back. How they decide the rest of the flow: without an altitude at
      or above the horizon nothing more happens (the session stays busy); with
      one but a coordinate that is not a number the session is freed; with
      both numeric the page waits to settle and then, with a camera, shoots. */
  lemma CoordinateOutcome(sid: Option<nat>, id: Option<string>, az: Reading, alt: Reading, camera: bool)
    ensures var t := CoordinateCalls(sid, id, az, alt, camera);
      ((|t| > 0 && t[0].SaveCoords?) <==> Present(id) && !az.Missing? && !alt.Missing?) &&
      (NoAltitudeOrBelow(alt) ==>
        MarkAvailable(sid, true) !in t && Settle(SettleMs) !in t && TriggerCamera !in t) &&
      (!NoAltitudeOrBelow(alt) && !ShootsAt(az, alt) ==>
        |t| > 0 && t[|t| - 1] == MarkAvailable(sid, true) && Settle(SettleMs) !in t && TriggerCamera !in t) &&
      (ShootsAt(az, alt) ==>
        MarkAvailable(sid, true) !in t &&
        (camera ==> EndsWithShot(t)) &&
        (!camera ==> |t| > 0 && t[|t| - 1] == Settle(SettleMs) && TriggerCamera !in t))
  {
  }

  /** Whether the controller's reply lets the flow reach the photo: numeric
      coordinates with the altitude at or above the horizon. */
  predicate Shoots(ctrl: ControllerReply)
  {
    ctrl.ControllerOk? && ShootsAt(ctrl.azimuth, ctrl.altitude)
  }

  /** The altitude guards stop the flow before the photo: no altitude, one
      that is not a number, or one below the horizon. */
  predicate NoAltitudeOrBelow(alt: Reading)
  {
    alt.Missing? || NumberOf(alt).None? || NumberOf(alt).value < 0.0
  }

  predicate ShootsAt(az: Reading, alt: Reading)
  {
    az.Number? && alt.Number? && alt.v >= 0.0
  }

  /** The first steps of the aim flow: both buttons off, the download link
      cleared, the session marked busy, the observation requested. */
  function Busy(st: Ui, name: string): (b: Ui)
    requires st.session.Some?
    ensures b.calls == st.calls + [MarkAvailable(st.session.value.id, false)] + [CreateObservation(st.session.value.id, name)]
    ensures b.session == Some(st.session.value.(available := Some(false)))
    ensures b.user == st.user && b.controller == st.controller && b.camera == st.camera && b.download.None?
    ensures !b.aimEnabled && !b.finishEnabled
  {
    var sid := st.session.value.id;
    var marked := st.(aimEnabled := false, finishEnabled := false, download := None,
                      calls := st.calls + [MarkAvailable(sid, false)]);
    marked.(session := Some(st.session.value.(available := Some(false))),
            calls := marked.calls + [CreateObservation(sid, name)])
  }

  /** The page after an "Apuntar" click. */
  function AimOutcome(st: Ui, raw: string, create: CreateReply, ctrl: ControllerReply): (r: Ui)
    ensures r.user == st.user && r.controller == st.controller && r.camera == st.camera
  {
    if st.session.None? || st.user.None? || Trim(raw) == "" then st
    else CreateOutcome(Busy(st, NormalizeLabel(raw)), st.session.value.id, NormalizeLabel(raw), create, ctrl)
  }

  /** The busy page after the create reply: a failed create or an empty list
      frees the session, a record goes on to the tail of the flow. */
  function CreateOutcome(busy: Ui, sid: Option<nat>, name: string, create: CreateReply, ctrl: ControllerReply): (r: Ui)
    requires busy.session.Some?
    ensures r.user == busy.user && r.controller == busy.controller && r.camera == busy.camera
  {
    match create
    case CreateFailed =>
      busy.(calls := busy.calls + [MarkAvailable(sid, true)],
            session := Some(busy.session.value.(available := Some(true))), aimEnabled := true)
    case CreatedList(rows) =>
      if rows == [] then
        // reading the id of `obs[0]` throws and the general handler runs
        busy.(current := None, aimEnabled := true, calls := busy.calls + [MarkAvailable(sid, true)])
      else AfterCreate(busy, sid, name, rows[0], ctrl)
    case Created(row) => AfterCreate(busy, sid, name, row, ctrl)
  }

  /** A log that starts with the busy log and the pointing call starts with
      the busy log. */
  lemma AfterCreatePrefix(busy: Ui, name: string, r: Ui)
    requires |busy.calls| < |r.calls| && r.calls[..|busy.calls| + 1] == busy.calls + [Point(name)]
    ensures r.calls[..|busy.calls|] == busy.calls
  {
    assert r.calls[..|busy.calls|] == r.calls[..|busy.calls| + 1][..|busy.calls|];
  }

  /** True when the aim flow gets past its guards. */
  predicate AimStarts(st: Ui, raw: string)
  {
    st.session.Some? && st.user.Some? && Trim(raw) != ""
  }

  /** The calls a flow added to the log. */
  function Added(before: Ui, after: Ui): seq<Call>
    requires |before.calls| <= |after.calls|
  {
    after.calls[|before.calls|..]
  }

  /** No session, no user or a blank label: nothing happens. */
  lemma AimGuards(st: Ui, raw: string, create: CreateReply, ctrl: ControllerReply)
    requires !AimStarts(st, raw)
    ensures AimOutcome(st, raw, create, ctrl) == st
  {
  }

  /** The session is marked busy before the observation is created, and both
      buttons are off while the flow runs; the log only grows. */
  lemma AimMarksBusyFirst(st: Ui, raw: string, create: CreateReply, ctrl: ControllerReply)
    requires AimStarts(st, raw)
    ensures var r := AimOutcome(st, raw, create, ctrl);
      var sid := st.session.value.id;
      |st.calls| + 2 <= |r.calls| && r.calls[..|st.calls|] == st.calls &&
      Added(st, r)[0] == MarkAvailable(sid, false) &&
      Added(st, r)[1] == CreateObservation(sid, NormalizeLabel(raw)) &&
      r.download.None? && r.user == st.user && r.controller == st.controller && r.camera == st.camera
  {
    var r := AimOutcome(st, raw, create, ctrl);
    var busy := Busy(st, NormalizeLabel(raw));
    var sid := st.session.value.id;
    var n := |st.calls|;
    AimExtendsBusy(st, raw, create, ctrl);
    assert |busy.calls| == n + 2;
    assert r.calls[..n] == r.calls[..n + 2][..n];
    assert busy.calls[..n] == st.calls;
    assert Added(st, r)[0] == r.calls[n] == busy.calls[n];
    assert Added(st, r)[1] == r.calls[n + 1] == busy.calls[n + 1];
  }

  /** Every aim outcome past the guards extends the busy page's log. */
  lemma AimExtendsBusy(st: Ui, raw: string, create: CreateReply, ctrl: ControllerReply)
    requires AimStarts(st, raw)
    ensures var r := AimOutcome(st, raw, create, ctrl);
      var busy := Busy(st, NormalizeLabel(raw));
      |busy.calls| <= |r.calls| && r.calls[..|busy.calls|] == busy.calls &&
      r.download.None? && r.user == st.user && r.controller == st.controller && r.camera == st.camera
  {
    var busy := Busy(st, NormalizeLabel(raw));
    var sid := st.session.value.id;
    match create {
      case CreateFailed =>
      case CreatedList(rows) =>
        if rows != [] {
          AfterCreatePrefix(busy, NormalizeLabel(raw), AfterCreate(busy, sid, NormalizeLabel(raw), rows[0], ctrl));
        }
      case Created(row) =>
        AfterCreatePrefix(busy, NormalizeLabel(raw), AfterCreate(busy, sid, NormalizeLabel(raw), row, ctrl));
    }
  }

  /** A failure to create the observation or to reach the controller frees the
      session (the last request marks it available) and re-enables aiming. */
  lemma AimFailureFrees(st: Ui, raw: string, create: CreateReply, ctrl: ControllerReply)
    requires AimStarts(st, raw)
    requires create.CreateFailed? || create == CreatedList([]) || ctrl.ControllerFailed?
    ensures var r := AimOutcome(st, raw, create, ctrl);
      r.calls[|r.calls| - 1] == MarkAvailable(st.session.value.id, true) && r.aimEnabled && !r.finishEnabled
  {
    var busy := Busy(st, NormalizeLabel(raw));
    var sid := st.session.value.id;
    match create {
      case CreateFailed =>
      case CreatedList(rows) =>
        if rows != [] {
          AfterCreateUnreachable(busy, sid, NormalizeLabel(raw), rows[0], ctrl);
        }
      case Created(row) =>
        AfterCreateUnreachable(busy, sid, NormalizeLabel(raw), row, ctrl);
    }
  }

  /** An unreachable controller frees the session right after pointing. */
  lemma AfterCreateUnreachable(busy: Ui, sid: Option<nat>, name: string, row: ObsRecord, ctrl: ControllerReply)
    requires !busy.finishEnabled
    ensures ctrl.ControllerFailed? ==>
      var r := AfterCreate(busy, sid, name, row, ctrl);
      r.calls == busy.calls + [Point(name)] + [MarkAvailable(sid, true)] && r.aimEnabled && !r.finishEnabled
  {
  }

  /** The camera is triggered only after the settle pause, only with a camera
      configured, and only for a numeric altitude at or above the horizon. */
  lemma AimPhotoAboveHorizon(st: Ui, raw: string, create: CreateReply, ctrl: ControllerReply)
    requires AimStarts(st, raw)
    ensures var r := AimOutcome(st, raw, create, ctrl);
      (TriggerCamera in r.calls ==>
        TriggerCamera in st.calls ||
        (st.camera.Some? && ctrl.ControllerOk? && ctrl.altitude.Number? && ctrl.altitude.v >= 0.0 && EndsWithShot(r.calls))) &&
      (r.finishEnabled <==>
        create != CreateFailed && create != CreatedList([]) &&
        ctrl.ControllerOk? && ctrl.azimuth.Number? && ctrl.altitude.Number? && ctrl.altitude.v >= 0.0) &&
      (st.camera.Some? && r.finishEnabled ==> EndsWithShot(r.calls))
  {
    var name := NormalizeLabel(raw);
    var busy := Busy(st, name);
    var sid := st.session.value.id;
    var r := AimOutcome(st, raw, create, ctrl);
    assert TriggerCamera in busy.calls <==> TriggerCamera in st.calls;
    match create {
      case CreateFailed =>
        assert r.calls == busy.calls + [MarkAvailable(sid, true)] && !r.finishEnabled;
      case CreatedList(rows) =>
        if rows != [] {
          assert r == AfterCreate(busy, sid, name, rows[0], ctrl);
          AfterCreatePhoto(busy, sid, name, rows[0], ctrl);
        } else {
          assert r.calls == busy.calls + [MarkAvailable(sid, true)] && !r.finishEnabled;
        }
      case Created(row) =>
        assert r == AfterCreate(busy, sid, name, row, ctrl);
        AfterCreatePhoto(busy, sid, name, row, ctrl);
    }
  }

  /** The log ends with the settle pause and the camera trigger. */
  predicate EndsWithShot(calls: seq<Call>)
  {
    |calls| >= 2 && calls[|calls| - 2] == Settle(SettleMs) && calls[|calls| - 1] == TriggerCamera
  }

  /** The photo step of the tail of the aim flow, for a page whose finish
      button is off. */
  lemma AfterCreatePhoto(busy: Ui, sid: Option<nat>, name: string, row: ObsRecord, ctrl: ControllerReply)
    requires !busy.finishEnabled
    ensures var r := AfterCreate(busy, sid, name, row, ctrl);
      (TriggerCamera in r.calls ==>
        TriggerCamera in busy.calls ||
        (busy.camera.Some? && ctrl.ControllerOk? && ctrl.altitude.Number? && ctrl.altitude.v >= 0.0 && EndsWithShot(r.calls))) &&
      (r.finishEnabled <==>
        ctrl.ControllerOk? && ctrl.azimuth.Number? && ctrl.altitude.Number? && ctrl.altitude.v >= 0.0) &&
      (busy.camera.Some? && r.finishEnabled ==> EndsWithShot(r.calls))
  {
    var r := AfterCreate(busy, sid, name, row, ctrl);
    var t := TailCalls(sid, name, row, ctrl, busy.camera.Some?);
    if TriggerCamera in r.calls && TriggerCamera !in busy.calls {
      assert TriggerCamera in t;
      assert busy.camera.Some? && Shoots(ctrl);
      assert r.calls[|r.calls| - 2] == t[|t| - 2] && r.calls[|r.calls| - 1] == t[|t| - 1];
    }
    if busy.camera.Some? && r.finishEnabled {
      assert Shoots(ctrl) && EndsWithShot(t);
      assert r.calls[|r.calls| - 2] == t[|t| - 2] && r.calls[|r.calls| - 1] == t[|t| - 1];
    }
  }

  /** Without an altitude at or above the horizon (none, not a number, or
      negative) the flow stops without freeing the session: it stays marked
      busy, no photo is asked for, aiming is re-enabled and finishing is not. */
  lemma AimBelowHorizonStaysBusy(st: Ui, raw: string, row: ObsRecord, az: Reading, alt: Reading, moves: Option<bool>)
    requires AimStarts(st, raw) && NoAltitudeOrBelow(alt)
    ensures var r := AimOutcome(st, raw, Created(row), ControllerOk(az, alt, moves));
      MarkAvailable(st.session.value.id, true) !in Added(st, r) && TriggerCamera !in Added(st, r) &&
      Settle(SettleMs) !in Added(st, r) &&
      r.aimEnabled && !r.finishEnabled
  {
    var sid := st.session.value.id;
    var name := NormalizeLabel(raw);
    AimAddsTail(st, raw, row, ControllerOk(az, alt, moves));
    BelowHorizonTail(sid, name, row, az, alt, moves, st.camera.Some?);
  }

  /** A created record: the flow adds the busy mark, the create and the tail,
      and the buttons follow whether the photo step is reached. */
  lemma AimAddsTail(st: Ui, raw: string, row: ObsRecord, ctrl: ControllerReply)
    requires AimStarts(st, raw)
    ensures var r := AimOutcome(st, raw, Created(row), ctrl);
      var sid := st.session.value.id;
      var name := NormalizeLabel(raw);
      Added(st, r) == [MarkAvailable(sid, false), CreateObservation(sid, name)] + TailCalls(sid, name, row, ctrl, st.camera.Some?) &&
      r.aimEnabled == !Shoots(ctrl) && r.finishEnabled == Shoots(ctrl)
  {
    var sid := st.session.value.id;
    var name := NormalizeLabel(raw);
    var busy := Busy(st, name);
    var t := TailCalls(sid, name, row, ctrl, busy.camera.Some?);
    var head := [MarkAvailable(sid, false), CreateObservation(sid, name)];
    AimCreated(st, raw, row, ctrl);
    AfterCreateCalls(busy, sid, name, row, ctrl);
    AddedAfter(st, AfterCreate(busy, sid, name, row, ctrl), busy.calls, head, t);
  }

  /** Calls appended in two rounds are the calls added. */
  lemma AddedAfter(st: Ui, r: Ui, middle: seq<Call>, head: seq<Call>, t: seq<Call>)
    requires middle == st.calls + head && r.calls == middle + t
    ensures |st.calls| <= |r.calls| && Added(st, r) == head + t
  {
    assert r.calls == st.calls + (head + t);
  }

  /** A created record takes the flow from the busy page to `AfterCreate`. */
  lemma AimCreated(st: Ui, raw: string, row: ObsRecord, ctrl: ControllerReply)
    requires AimStarts(st, raw)
    ensures var name := NormalizeLabel(raw);
      AimOutcome(st, raw, Created(row), ctrl) == AfterCreate(Busy(st, name), st.session.value.id, name, row, ctrl)
  {
  }

  /** `AfterCreate` appends the tail and sets the buttons from the photo step. */
  lemma AfterCreateCalls(busy: Ui, sid: Option<nat>, name: string, row: ObsRecord, ctrl: ControllerReply)
    requires !busy.aimEnabled && !busy.finishEnabled
    ensures var r := AfterCreate(busy, sid, name, row, ctrl);
      r.calls == busy.calls + TailCalls(sid, name, row, ctrl, busy.camera.Some?) &&
      r.aimEnabled == !Shoots(ctrl) && r.finishEnabled == Shoots(ctrl)
  {
  }

  /** Without an altitude at or above the horizon the tail points and at most
      saves the coordinates. */
  lemma BelowHorizonTail(sid: Option<nat>, name: string, row: ObsRecord, az: Reading, alt: Reading, moves: Option<bool>, camera: bool)
    requires NoAltitudeOrBelow(alt)
    ensures var t := TailCalls(sid, name, row, ControllerOk(az, alt, moves), camera);
      MarkAvailable(sid, true) !in t && TriggerCamera !in t && Settle(SettleMs) !in t && !ShootsAt(az, alt)
  {
    var c := CoordinateCalls(sid, CreatedId(row), az, alt, camera);
    CoordinateOutcome(sid, CreatedId(row), az, alt, camera);
    assert TailCalls(sid, name, row, ControllerOk(az, alt, moves), camera) == [Point(name)] + c;
  }

  /** Coordinates are saved exactly when the record has an id and the
      controller gave both coordinates. */
  lemma AimSavesCoords(st: Ui, raw: string, row: ObsRecord, az: Reading, alt: Reading, moves: Option<bool>)
    requires AimStarts(st, raw)
    ensures var r := AimOutcome(st, raw, Created(row), ControllerOk(az, alt, moves));
      var id := CreatedId(row);
      (|Added(st, r)| > 3 && Added(st, r)[3].SaveCoords?) <==> Present(id) && !az.Missing? && !alt.Missing?
  {
    var busy := Busy(st, NormalizeLabel(raw));
    var r := AimOutcome(st, raw, Created(row), ControllerOk(az, alt, moves));
    AfterCreateSaves(busy, st.session.value.id, NormalizeLabel(raw), row, az, alt, moves);
    assert r == AfterCreate(busy, st.session.value.id, NormalizeLabel(raw), row, ControllerOk(az, alt, moves));
    assert |busy.calls| == |st.calls| + 2;
    assert |Added(st, r)| > 3 <==> |r.calls| > |busy.calls| + 1;
    assert |Added(st, r)| > 3 ==> Added(st, r)[3] == r.calls[|busy.calls| + 1];
  }

  /** The call after pointing saves the coordinates exactly when the record
      has an id and both coordinates came back. */
  lemma AfterCreateSaves(busy: Ui, sid: Option<nat>, name: string, row: ObsRecord, az: Reading, alt: Reading, moves: Option<bool>)
    ensures var r := AfterCreate(busy, sid, name, row, ControllerOk(az, alt, moves));
      (|r.calls| > |busy.calls| + 1 && r.calls[|busy.calls| + 1].SaveCoords?) <==>
        Present(CreatedId(row)) && !az.Missing? && !alt.Missing?
  {
  }

  /** `mueve: false` changes only the message shown, not what the flow does. */
  lemma AimIgnoresMoves(st: Ui, raw: string, create: CreateReply, az: Reading, alt: Reading, m1: Option<bool>, m2: Option<bool>)
    ensures AimOutcome(st, raw, create, ControllerOk(az, alt, m1)) == AimOutcome(st, raw, create, ControllerOk(az, alt, m2))
  {
    if AimStarts(st, raw) {
      var busy := Busy(st, NormalizeLabel(raw));
      var sid := st.session.value.id;
      var name := NormalizeLabel(raw);
      match create {
        case CreateFailed =>
        case CreatedList(rows) =>
          if rows != [] {
            AfterCreateIgnoresMoves(busy, sid, name, rows[0], az, alt, m1, m2);
          }
        case Created(row) =>
          AfterCreateIgnoresMoves(busy, sid, name, row, az, alt, m1, m2);
      }
    }
  }

  /** The tail of the flow does not read `mueve`. */
  lemma AfterCreateIgnoresMoves(busy: Ui, sid: Option<nat>, name: string, row: ObsRecord, az: Reading, alt: Reading, m1: Option<bool>, m2: Option<bool>)
    ensures AfterCreate(busy, sid, name, row, ControllerOk(az, alt, m1)) == AfterCreate(busy, sid, name, row, ControllerOk(az, alt, m2))
  {
    var r1 := AfterCreate(busy, sid, name, row, ControllerOk(az, alt, m1));
    var r2 := AfterCreate(busy, sid, name, row, ControllerOk(az, alt, m2));
    assert r1.calls == r2.calls;
    assert r1.current == r2.current;
    assert r1.aimEnabled == r2.aimEnabled && r1.finishEnabled == r2.finishEnabled;
  }

  // ---------------------------------------------------------------------------
  // Finish (the "Finalizar" click)

  /** The owner's finish request goes out: the session refreshed, the
      finish button off, the current observation refreshed when the query
      returned one, and the finish request sent. */
  function Sent(st: Ui, sv: SessionView, obsReply: Option<ObsRecord>): (r: Ui)
    ensures r.calls == st.calls + [FetchSession] + [FetchObservation(sv.id)] +
      [FinishObservation(sv.id, PayloadId(if obsReply.Some? then obsReply else st.current))]
    ensures r.user == st.user && r.session == Some(sv) && r.download == st.download
  {
    var fetched := st.(session := Some(sv), calls := st.calls + [FetchSession]);
    var cur := if obsReply.Some? then obsReply else st.current;
    var asked := fetched.(finishEnabled := false, calls := fetched.calls + [FetchObservation(sv.id)], current := cur);
    asked.(calls := asked.calls + [FinishObservation(sv.id, PayloadId(cur))])
  }

  /** What the page does with the finish reply; `id` is the id it sent. */
  function AfterFinishReply(sent: Ui, sv: SessionView, id: Option<string>, fin: FinishReply, markFailed: bool): (r: Ui)
    ensures |sent.calls| <= |r.calls| && r.calls[..|sent.calls|] == sent.calls
  {
    var sid := sv.id;
    match fin
    case FinishFailed(m) =>
      if FreesSession(if m == "" then "Error al finalizar." else m) then
        var freed := sent.(calls := sent.calls + [MarkAvailable(sid, true)]);
        freed.(session := Some(sv.(available := Some(true))), current := None, download := None,
               calls := freed.calls + [Reevaluate], aimEnabled := true)
      else sent.(finishEnabled := true)
    case FinishDone(oid, warning) =>
      if !Present(oid) && id.None? then sent.(finishEnabled := true)
      else
        var finalId := if Present(oid) then oid.value else id.value;
        var marked := sent.(download := if Present(warning) then None else Some(FinishPhotoUrl(finalId)),
                            calls := sent.calls + [MarkAvailable(sid, true)]);
        if markFailed then marked.(finishEnabled := true)
        else marked.(aimEnabled := true, current := None, calls := marked.calls + [Reevaluate])
  }

  /** The page after a "Finalizar" click, given the refreshed session, the
      current-observation query (None = null data), the finish reply and
      whether marking the session available failed. */
  function FinishOutcome(st: Ui, sessionReply: Option<SessionView>, obsReply: Option<ObsRecord>, fin: FinishReply, markFailed: bool): (r: Ui)
    ensures r.user == st.user && r.controller == st.controller && r.camera == st.camera
    ensures st.session.None? || st.user.None? ==> r == st
  {
    if st.session.None? || st.user.None? then st
    else if sessionReply.None? || !IsOwner(sessionReply.value, st.user) then
      st.(session := sessionReply, calls := st.calls + [FetchSession])
    else
      var cur := if obsReply.Some? then obsReply else st.current;
      AfterFinishReply(Sent(st, sessionReply.value, obsReply), sessionReply.value, PayloadId(cur), fin, markFailed)
  }

  /** Only the owner of the refreshed session can finish: anyone else only
      refreshes the session. */
  lemma FinishOnlyOwner(st: Ui, sessionReply: Option<SessionView>, obsReply: Option<ObsRecord>, fin: FinishReply, markFailed: bool)
    requires st.session.Some? && st.user.Some?
    requires sessionReply.None? || !IsOwner(sessionReply.value, st.user)
    ensures FinishOutcome(st, sessionReply, obsReply, fin, markFailed) == st.(session := sessionReply, calls := st.calls + [FetchSession])
  {
  }

  /** The owner's request names the observation the page knows about (the
      fresh query's, else the one it created), and only when its id is truthy. */
  lemma FinishPayload(st: Ui, sv: SessionView, obsReply: Option<ObsRecord>, fin: FinishReply, markFailed: bool)
    requires st.session.Some? && IsOwner(sv, st.user)
    ensures var r := FinishOutcome(st, Some(sv), obsReply, fin, markFailed);
      var cur := if obsReply.Some? then obsReply else st.current;
      |st.calls| + 3 <= |r.calls| &&
      Added(st, r)[..3] == [FetchSession, FetchObservation(sv.id), FinishObservation(sv.id, PayloadId(cur))]
  {
    var cur := if obsReply.Some? then obsReply else st.current;
    var sent := Sent(st, sv, obsReply);
    var r := AfterFinishReply(sent, sv, PayloadId(cur), fin, markFailed);
    assert FinishOutcome(st, Some(sv), obsReply, fin, markFailed) == r;
    var three := [FetchSession, FetchObservation(sv.id), FinishObservation(sv.id, PayloadId(cur))];
    assert sent.calls == st.calls + three;
    assert r.calls[..|sent.calls|] == st.calls + three;
    assert Added(st, r)[..3] == r.calls[..|sent.calls|][|st.calls|..];
  }

  /** A finished observation with an id (the reply's, else the one sent) is
      always followed by the request that frees the session, and the photo link
      is offered exactly when the server sent no warning. When that request
      succeeds, aiming is re-enabled and availability re-evaluated; when it
      fails, finishing is re-enabled instead and nothing else is asked. */
  lemma FinishDownloadIffNoWarning(st: Ui, sv: SessionView, obsReply: Option<ObsRecord>, oid: Option<string>, warning: Option<string>, markFailed: bool)
    requires st.session.Some? && IsOwner(sv, st.user)
    requires Present(oid) || PayloadId(if obsReply.Some? then obsReply else st.current).Some?
    ensures var cur := if obsReply.Some? then obsReply else st.current;
      var sentId := PayloadId(cur);
      var finalId := if Present(oid) then oid.value else sentId.value;
      var r := FinishOutcome(st, Some(sv), obsReply, FinishDone(oid, warning), markFailed);
      (r.download.Some? <==> !Present(warning)) &&
      (r.download.Some? ==> r.download.value == FinishPhotoUrl(finalId)) &&
      |st.calls| <= |r.calls| &&
      Added(st, r) == [FetchSession, FetchObservation(sv.id), FinishObservation(sv.id, sentId), MarkAvailable(sv.id, true)] +
        (if markFailed then [] else [Reevaluate]) &&
      (markFailed ==> r.finishEnabled && r.aimEnabled == st.aimEnabled && r.current == cur) &&
      (!markFailed ==> r.aimEnabled && !r.finishEnabled && r.current.None?)
  {
    var cur := if obsReply.Some? then obsReply else st.current;
    var sent := Sent(st, sv, obsReply);
    var r := AfterFinishReply(sent, sv, PayloadId(cur), FinishDone(oid, warning), markFailed);
    assert FinishOutcome(st, Some(sv), obsReply, FinishDone(oid, warning), markFailed) == r;
    var three := [FetchSession, FetchObservation(sv.id), FinishObservation(sv.id, PayloadId(cur))];
    var t := [MarkAvailable(sv.id, true)] + (if markFailed then [] else [Reevaluate]);
    FinishDoneFields(sent, sv, PayloadId(cur), oid, warning, markFailed);
    assert !sent.finishEnabled && sent.aimEnabled == st.aimEnabled && sent.current == cur;
    AddedAfter(st, r, sent.calls, three, t);
  }

  /** `AfterFinishReply` for a reply that finished an observation with an id,
      field by field. */
  lemma FinishDoneFields(sent: Ui, sv: SessionView, id: Option<string>, oid: Option<string>, warning: Option<string>, markFailed: bool)
    requires Present(oid) || id.Some?
    ensures var r := AfterFinishReply(sent, sv, id, FinishDone(oid, warning), markFailed);
      var finalId := if Present(oid) then oid.value else id.value;
      r.download == (if Present(warning) then None else Some(FinishPhotoUrl(finalId))) &&
      r.calls == sent.calls + ([MarkAvailable(sv.id, true)] + (if markFailed then [] else [Reevaluate])) &&
      r.finishEnabled == (markFailed || sent.finishEnabled) &&
      r.aimEnabled == (!markFailed || sent.aimEnabled) &&
      r.current == (if markFailed then sent.current else None)
  {
  }

  /** A finish reply with no id, when the page sent none either, only
      re-enables finishing: the session is not freed and no link is offered. */
  lemma FinishWithoutIdRetries(st: Ui, sv: SessionView, obsReply: Option<ObsRecord>, oid: Option<string>, warning: Option<string>, markFailed: bool)
    requires st.session.Some? && IsOwner(sv, st.user)
    requires !Present(oid) && PayloadId(if obsReply.Some? then obsReply else st.current).None?
    ensures var r := FinishOutcome(st, Some(sv), obsReply, FinishDone(oid, warning), markFailed);
      |st.calls| <= |r.calls| &&
      Added(st, r) == [FetchSession, FetchObservation(sv.id), FinishObservation(sv.id, None)] &&
      r.finishEnabled && r.aimEnabled == st.aimEnabled && r.download == st.download
  {
    var cur := if obsReply.Some? then obsReply else st.current;
    var sent := Sent(st, sv, obsReply);
    var r := AfterFinishReply(sent, sv, PayloadId(cur), FinishDone(oid, warning), markFailed);
    assert FinishOutcome(st, Some(sv), obsReply, FinishDone(oid, warning), markFailed) == r;
    AddedAfter(st, r, sent.calls, [FetchSession, FetchObservation(sv.id), FinishObservation(sv.id, None)], []);
  }

  /** The server's "no observation in progress" error, decoded by the request
      wrapper, makes the page free the session anyway. */
  lemma NoObservationFreesSession(st: Ui, sv: SessionView, obsReply: Option<ObsRecord>, markFailed: bool)
    requires st.session.Some? && IsOwner(sv, st.user)
    ensures var reply := Api.ApiRequest(Api.Responded(404, Api.Json(Api.ErrorBody(Backend.NoObservationInProgress))));
      reply.error == Some(Api.Str(Backend.NoObservationInProgress)) &&
      var r := FinishOutcome(st, Some(sv), obsReply, FinishFailed(Backend.NoObservationInProgress), markFailed);
      r.calls[|r.calls| - 2] == MarkAvailable(sv.id, true) && r.calls[|r.calls| - 1] == Reevaluate &&
      r.aimEnabled && r.current.None? && r.session == Some(sv.(available := Some(true)))
  {
    Api.ErrorRoundTrip(404, Backend.NoObservationInProgress);
    NoObservationMessageFrees();
  }

  /** The server's text matches the page's test once lower-cased. */
  lemma NoObservationMessageFrees()
    ensures FreesSession(Backend.NoObservationInProgress)
  {
    var low := Lower(Backend.NoObservationInProgress);
    var p := "no hay observación";
    forall i | 0 <= i < |p|
      ensures low[i] == p[i]
    {
      assert low[i] == LowerChar(Backend.NoObservationInProgress[i]);
    }
    assert low[..|p|] == p;
    ContainsPrefix(low, p);
  }

  /** Any other finish error leaves the session as it was and re-enables
      finishing, so the user can retry. */
  lemma FinishOtherErrorRetries(st: Ui, sv: SessionView, obsReply: Option<ObsRecord>, m: string, markFailed: bool)
    requires st.session.Some? && IsOwner(sv, st.user)
    requires !FreesSession(if m == "" then "Error al finalizar." else m)
    ensures var r := FinishOutcome(st, Some(sv), obsReply, FinishFailed(m), markFailed);
      r.finishEnabled && !(MarkAvailable(sv.id, true) in Added(st, r))
  {
    var r := FinishOutcome(st, Some(sv), obsReply, FinishFailed(m), markFailed);
    var cur := if obsReply.Some? then obsReply else st.current;
    var sent := Sent(st, sv, obsReply);
    var three := [FetchSession, FetchObservation(sv.id), FinishObservation(sv.id, PayloadId(cur))];
    assert r == AfterFinishReply(sent, sv, PayloadId(cur), FinishFailed(m), markFailed);
    assert r == sent.(finishEnabled := true);
    AddedAfter(st, r, sent.calls, three, []);
    assert three + [] == three;
  }

  // ---------------------------------------------------------------------------
  // History

  /** The photo cell of a history row. */
  datatype Cell = OutOfHorizon | DownloadLink(url: string) | NoPhotoCell

  /** "Fuera del horizonte" for a numeric altitude below zero, whether or not
      the row has a photo; otherwise its download link; otherwise a dash. */
  function HistoryCell(id: string, altitude: Reading, photo: Option<string>): (c: Cell)
    ensures c == OutOfHorizon <==> NumberOf(altitude).Some? && NumberOf(altitude).value < 0.0
    ensures c.DownloadLink? <==> !(NumberOf(altitude).Some? && NumberOf(altitude).value < 0.0) && Present(photo)
    ensures c.DownloadLink? ==> c.url == PhotoUrl(id)
  {
    var alt := NumberOf(altitude);
    if alt.Some? && alt.value < 0.0 then OutOfHorizon
    else if Present(photo) then DownloadLink(PhotoUrl(id))
    else NoPhotoCell
  }

  /** The history agrees with the aim flow: an altitude the flow refuses to
      photograph shows as out of the horizon. */
  lemma HistoryAgreesWithAim(st: Ui, raw: string, row: ObsRecord, az: Reading, alt: Reading, moves: Option<bool>, id: string, photo: Option<string>)
    requires AimStarts(st, raw) && TriggerCamera !in st.calls
    requires alt.Number? || alt.NumericText?
    ensures TriggerCamera in AimOutcome(st, raw, Created(row), ControllerOk(az, alt, moves)).calls ==>
      HistoryCell(id, alt, photo) != OutOfHorizon
  {
    AimPhotoAboveHorizon(st, raw, Created(row), ControllerOk(az, alt, moves));
  }

  /** The history query's parameters: each filter only when it is set, the
      text trimmed first. */
  function HistoryParams(q: string, state: string, from: string, to: string): (r: seq<(string, string)>)
    ensures Trim(q) != "" ==> |r| > 0 && r[0] == ("q", Trim(q))
    ensures forall p :: p in r ==> p.1 != ""
    ensures forall p :: p in r ==> p.0 == "q" || p.0 == "estado" || p.0 == "desde" || p.0 == "hasta"
    ensures forall p :: p in r && p.0 == "q" ==> p.1 == Trim(q)
    ensures |r| <= 4
  {
    var a := Param("q", Trim(q));
    var b := Param("estado", state);
    var c := Param("desde", from);
    var d := Param("hasta", to);
    assert forall p :: p in a + b + c + d ==> p in a || p in b || p in c || p in d;
    a + b + c + d
  }

  /** One query parameter, left out when its value is empty. */
  function Param(k: string, v: string): (r: seq<(string, string)>)
    ensures forall p :: p in r <==> v != "" && p == (k, v)
    ensures |r| <= 1
  {
    if v != "" then [(k, v)] else []
  }

  /** A pair is among the parameters exactly when it is one of the four
      filters with its (trimmed, for the text) value, and that value is set. */
  lemma HistoryParamsIff(q: string, state: string, from: string, to: string)
    ensures var r := HistoryParams(q, state, from, to);
      forall k, v :: (k, v) in r <==>
        (v != "" &&
         ((k == "q" && v == Trim(q)) || (k == "estado" && v == state) ||
          (k == "desde" && v == from) || (k == "hasta" && v == to)))
  {
    var a := Param("q", Trim(q));
    var b := Param("estado", state);
    var c := Param("desde", from);
    var d := Param("hasta", to);
    assert HistoryParams(q, state, from, to) == a + b + c + d;
    forall k, v
      ensures (k, v) in a + b + c + d <==>
        (v != "" &&
         ((k == "q" && v == Trim(q)) || (k == "estado" && v == state) ||
          (k == "desde" && v == from) || (k == "hasta" && v == to)))
    {
      InFour(a, b, c, d, (k, v));
    }
  }

  /** Membership in a four-part concatenation. */
  lemma InFour<T>(a: seq<T>, b: seq<T>, c: seq<T>, d: seq<T>, x: T)
    ensures x in a + b + c + d <==> x in a || x in b || x in c || x in d
  {
  }

  // ---------------------------------------------------------------------------
  // The page object

  class DomeControl {
    var user: Option<nat>
    var session: Option<SessionView>
    var current: Option<ObsRecord>
    var controller: Option<string>
    var camera: Option<string>
    var aimEnabled: bool
    var finishEnabled: bool
    var download: Option<string>
    var calls: seq<Call>

    /** The page state as a value. */
    function View(): Ui
      reads this
    {
      Ui(user, session, current, controller, camera, aimEnabled, finishEnabled, download, calls)
    }

    /** `init` after the user, telescope and session are known: the hardware
      base URLs from the configuration (the camera is optional). Without a
      controller host both buttons stay disabled. */
    constructor (u: nat, s: Option<SessionView>, base: Option<EndpointCfg>, cam: Option<EndpointCfg>)
      ensures View() == Ui(Some(u), s, None, ControllerBase(base), if ControllerBase(base).Some? then ControllerBase(cam) else None,
                           false, false, None, [])
    {
      user := Some(u);
      session := s;
      current := None;
      controller := ControllerBase(base);
      camera := if ControllerBase(base).Some? then ControllerBase(cam) else None;
      aimEnabled := false;
      finishEnabled := false;
      download := None;
      calls := [];
    }

    /** `evaluarDisponibilidad`. */
    method Evaluate(telescope: TelescopeView, online: bool, sessionReply: Option<SessionView>, obsReply: Option<ObsRecord>)
      modifies this
      ensures View() == EvaluateOutcome(old(View()), telescope, online, sessionReply, obsReply)
    {
      if telescope.NoTelescope? || (Present(telescope.state) && telescope.state.value != "disponible") || controller.None? {
        aimEnabled, finishEnabled := false, false;
      } else {
        calls := calls + [FetchStatus];
        if !online {
          aimEnabled, finishEnabled := false, false;
        } else {
          calls := calls + [FetchSession];
          session := sessionReply;
          if session.None? || !IsOwner(session.value, user) {
            aimEnabled, finishEnabled := false, false;
            current := None;
          } else if session.value.available != Some(true) {
            aimEnabled, finishEnabled := false, true;
            calls := calls + [FetchObservation(session.value.id)];
            current := obsReply;
          } else {
            aimEnabled, finishEnabled := true, false;
            current := None;
          }
        }
      }
    }

    /** The "Apuntar" click. */
    method Aim(raw: string, create: CreateReply, ctrl: ControllerReply)
      modifies this
      ensures View() == AimOutcome(old(View()), raw, create, ctrl)
    {
      if session.Some? && user.Some? && Trim(raw) != "" {
        var name := NormalizeLabel(raw);
        var sid := session.value.id;
        MarkBusy(name);
        HandleCreate(sid, name, create, ctrl);
      }
    }

    /** The first steps of the click: both buttons off, the link cleared,
      the session marked busy and the observation requested. */
    method MarkBusy(name: string)
      requires session.Some?
      modifies this
      ensures View() == Busy(old(View()), name)
    {
      var sid := session.value.id;
      aimEnabled, finishEnabled := false, false;
      download := None;
      calls := calls + [MarkAvailable(sid, false)];
      session := Some(session.value.(available := Some(false)));
      calls := calls + [CreateObservation(sid, name)];
    }

    /** The part of the click that reads the create reply. */
    method HandleCreate(sid: Option<nat>, name: string, create: CreateReply, ctrl: ControllerReply)
      requires session.Some?
      modifies this
      ensures View() == CreateOutcome(old(View()), sid, name, create, ctrl)
    {
      match create {
        case CreateFailed =>
          calls := calls + [MarkAvailable(sid, true)];
          session := Some(session.value.(available := Some(true)));
          aimEnabled := true;
        case CreatedList(rows) =>
          if rows == [] {
            current := None;
            aimEnabled := true;
            calls := calls + [MarkAvailable(sid, true)];
          } else {
            PointAndShoot(sid, name, rows[0], ctrl);
          }
        case Created(one) =>
          PointAndShoot(sid, name, one, ctrl);
      }
    }

    /** The part of the click after the observation exists: point the dome,
      save the coordinates, check the horizon, wait and trigger the camera. */
    method PointAndShoot(sid: Option<nat>, name: string, row: ObsRecord, ctrl: ControllerReply)
      modifies this
      ensures View() == AfterCreate(old(View()), sid, name, row, ctrl)
    {
      if ctrl.ControllerFailed? {
        ControllerDown(sid, name, row);
      } else {
        ControllerUp(sid, name, row, ctrl.azimuth, ctrl.altitude, ctrl.moves);
      }
    }

    /** The controller could not be reached: the session is freed. */
    method ControllerDown(sid: Option<nat>, name: string, row: ObsRecord)
      modifies this
      ensures View() == AfterCreate(old(View()), sid, name, row, ControllerFailed)
    {
      current := Some(row.(idObservacion := CreatedId(row)));
      calls := calls + [Point(name)] + [MarkAvailable(sid, true)];
      aimEnabled := true;
    }

    /** The controller answered with (possibly missing) coordinates. */
    method ControllerUp(sid: Option<nat>, name: string, row: ObsRecord, az: Reading, alt: Reading, moves: Option<bool>)
      modifies this
      ensures View() == AfterCreate(old(View()), sid, name, row, ControllerOk(az, alt, moves))
    {
      var cur := row.(idObservacion := CreatedId(row));
      ghost var cc := CoordinateCalls(sid, cur.idObservacion, az, alt, camera.Some?);
      ghost var before := calls;
      AfterCreateAnswered(old(View()), sid, name, row, az, alt, moves);
      current := Some(cur);
      calls := calls + [Point(name)];
      ReadCoordinates(sid, cur.idObservacion, az, alt);
      assert calls == before + ([Point(name)] + cc);
    }

    /** The part of the click after the controller has answered with (possibly
      missing) coordinates. */
    method ReadCoordinates(sid: Option<nat>, id: Option<string>, az: Reading, alt: Reading)
      modifies this
      ensures calls == old(calls) + CoordinateCalls(sid, id, az, alt, camera.Some?)
      ensures aimEnabled == (old(aimEnabled) || !ShootsAt(az, alt))
      ensures finishEnabled == (old(finishEnabled) || ShootsAt(az, alt))
      ensures user == old(user) && session == old(session) && current == old(current)
      ensures controller == old(controller) && camera == old(camera) && download == old(download)
    {
      var added: seq<Call> := [];
      if Present(id) && !az.Missing? && !alt.Missing? {
        added := [SaveCoords(id.value, az, alt)];
      }
      var altitude := NumberOf(alt);
      var shoots := false;
      if alt.Missing? || altitude.None? || altitude.value < 0.0 {
      } else if !az.Number? || !alt.Number? {
        added := added + [MarkAvailable(sid, true)];
      } else {
        added := added + [Settle(SettleMs)];
        if camera.Some? {
          added := added + [TriggerCamera];
        }
        shoots := true;
      }
      calls := calls + added;
      if shoots {
        finishEnabled := true;
      } else {
        aimEnabled := true;
      }
    }

    /** The "Finalizar" click. */
    method Finish(sessionReply: Option<SessionView>, obsReply: Option<ObsRecord>, fin: FinishReply, markFailed: bool)
      modifies this
      ensures View() == FinishOutcome(old(View()), sessionReply, obsReply, fin, markFailed)
    {
      if session.Some? && user.Some? {
        calls := calls + [FetchSession];
        session := sessionReply;
        if session.Some? && IsOwner(session.value, user) {
          var sv := session.value;
          finishEnabled := false;
          calls := calls + [FetchObservation(sv.id)];
          if obsReply.Some? {
            current := obsReply;
          }
          var id := PayloadId(current);
          calls := calls + [FinishObservation(sv.id, id)];
          assert View() == Sent(old(View()), sv, obsReply);
          HandleFinishReply(sv, id, fin, markFailed);
        }
      }
    }

    /** The part of the click that reads the finish reply. */
    method HandleFinishReply(sv: SessionView, id: Option<string>, fin: FinishReply, markFailed: bool)
      modifies this
      ensures View() == AfterFinishReply(old(View()), sv, id, fin, markFailed)
    {
      match fin {
        case FinishFailed(m) =>
          var msg := if m == "" then "Error al finalizar." else m;
          if FreesSession(msg) {
            calls := calls + [MarkAvailable(sv.id, true)];
            session := Some(sv.(available := Some(true)));
            current := None;
            download := None;
            calls := calls + [Reevaluate];
            aimEnabled := true;
          } else {
            finishEnabled := true;
          }
        case FinishDone(oid, warning) =>
          if !Present(oid) && id.None? {
            finishEnabled := true;
          } else {
            var finalId := if Present(oid) then oid.value else id.value;
            download := if Present(warning) then None else Some(FinishPhotoUrl(finalId));
            calls := calls + [MarkAvailable(sv.id, true)];
            if markFailed {
              finishEnabled := true;
            } else {
              aimEnabled := true;
              current := None;
              calls := calls + [Reevaluate];
            }
          }
      }
    }
  }
}
