/** The server (app.py): the tables it keeps in the data store, the handlers
    that grant access, run the FIFO queue, manage sessions and observations and
    save the hardware configuration, and the pure helpers those handlers use.

    Every table is a sequence of records in a `Store` object; a select is a
    pure function over a sequence, an insert appends, an update is a
    sequence-wide "set these fields where the key matches", a delete filters.
    Timestamps are integers counted in milliseconds. */
module Backend {
  import opened Common

  type UserId = nat
  type Time = int

  /** Length of a time-boxed turn: ten minutes, in milliseconds. */
  const TenMinutes: int := 10 * 60 * 1000

  /** Telescope id of the default deployment (`TELESCOPIO_ID` in the pages). */
  const DefaultTelescope: int := 1

  // ---------------------------------------------------------------------------
  // Request fields

  /** An integer field of a JSON request: absent (or null or another falsy
      value), present but refused by `int(...)`, or a JSON number `n`. `Given(0)`
      is the number 0, which is falsy; a numeric string such as "0" is truthy
      and is not one of these values. */
  datatype IdField = Absent | Malformed | Given(n: int)

  /** The `puerto` field: absent or falsy, an integer, or something `int()` refuses. */
  datatype PortField = PortAbsent | PortInt(n: int) | PortInvalid

  /** The body of `POST /api/observacion/finalizar`: three spellings of the
      observation id and the session id. */
  datatype FinishRequest = FinishRequest(
    idObservacion: Option<string>,
    idObservacionCamel: Option<string>,
    id: Option<string>,
    idSesion: Option<nat>)

  /** What the camera's `GET /photo.jpg` produced: a status and body size, or
      an exception of the HTTP client with its text. */
  datatype CamReply = CamReply(status: int, size: nat) | CamUnreachable(message: string)

  // ---------------------------------------------------------------------------
  // Tables

  /** `telescopio_sesion.estado`: "activa" or "finalizada". */
  datatype SessionState = Active | Ended

  /** A row of `telescopio_sesion`; `end` is `fin_sesion` (None = unlimited),
      `available` is `disponible` (false = an observation is running). */
  datatype Session = Session(
    id: nat,
    telescope: int,
    user: UserId,
    start: Time,
    end: Option<Time>,
    state: SessionState,
    available: bool)

  /** A row of `queue`. */
  datatype QueueEntry = QueueEntry(id: nat, telescope: int, user: UserId, enqueued: Time)

  /** `observacion.estado`: "en curso" or "finalizada". */
  datatype ObsState = InProgress | Finished

  /** A row of `observacion`; `target` is `objeto_celeste` ("" when null),
      `controller` is `usuario_control`, `note` is `descripcion`. */
  datatype Observation = Observation(
    id: string,
    session: nat,
    target: string,
    start: Time,
    state: ObsState,
    controller: UserId,
    azimuth: Option<real>,
    altitude: Option<real>,
    photo: Option<string>,
    note: Option<string>,
    end: Option<Time>)

  /** A row of `telescopio_config`; `host` is "" when null, `port` 0 when null. */
  datatype ConfigRow = ConfigRow(telescope: int, kind: string, host: string, port: int, updated: Time)

  /** One entry of the config getter's reply, keyed by `tipo`. */
  datatype Endpoint = Endpoint(host: string, port: int)

  /** The `modo` of `POST /api/acceso/solicitar`: ACCESO_DIRECTO with the new
      session, or EN_COLA with the new entry (None when already queued). */
  datatype AccessReply = Direct(session: Session) | Queued(entry: Option<QueueEntry>)

  /** The reply of `POST /api/observacion/finalizar`. */
  datatype FinishReply = FinishReply(observation: string, warning: Option<string>)

  // ---------------------------------------------------------------------------
  // Error texts

  const BadTelescope := "id_telescopio inválido"
  const MissingTelescope := "Falta id_telescopio"
  const MissingSession := "Falta id_sesion"
  const DuplicateEntry := "ux_queue_telescopio_usuario"
  const MissingAvailability := "Falta id_sesion o disponible"
  const MissingStartFields := "Falta id_sesion u objeto_celeste"
  const MissingFinishTarget := "Falta id_observacion o id_sesion"
  const NoObservationInProgress := "No hay observación en curso para esa sesión"
  const MissingObservationId := "Falta id_observacion"
  const BadPort := "puerto inválido"
  const BadKind := "tipo inválido"
  const HostRequired := "host requerido"
  const ObservationNotFound := "Observación no encontrada"
  const NotAuthorized := "No autorizado"
  const NoPhoto := "Sin foto asociada"
  const PhotoTooSmall := "La cam devolvió un archivo vacío o muy pequeño (posible error)"
  /** A stand-in for the error the data-store client raises when `.single()`
      finds no row. The real text is that library's and is not modelled; it
      reaches the user inside the photo warning. */
  const SingleRowMissing := "observation row not found"

  /** The three hardware kinds a configuration row may have. */
  predicate IsKind(k: string)
  {
    k == "esp32_base" || k == "esp32_cam" || k == "stellarium"
  }

  // ---------------------------------------------------------------------------
  // Selects

  predicate IsActiveAt(s: Session, telescope: int)
  {
    s.state == Active && s.telescope == telescope
  }

  /** Index of the newest active session of a telescope
      (`estado = 'activa' order by inicio_sesion desc limit 1`). */
  function ActiveIndex(ss: seq<Session>, telescope: int): (r: Option<nat>)
    ensures r.None? <==> forall i :: 0 <= i < |ss| ==> !IsActiveAt(ss[i], telescope)
    ensures r.Some? ==> r.value < |ss| && IsActiveAt(ss[r.value], telescope)
    ensures r.Some? ==> forall i :: 0 <= i < |ss| && IsActiveAt(ss[i], telescope) ==> ss[i].start <= ss[r.value].start
  {
    FirstMaxIndex(ss, (s: Session) => IsActiveAt(s, telescope), (s: Session) => s.start)
  }

  /** `GET /api/sesion/activa/<id>`: the newest active session, or None. */
  function ActiveSession(ss: seq<Session>, telescope: int): (r: Option<Session>)
    ensures r.None? <==> forall i :: 0 <= i < |ss| ==> !IsActiveAt(ss[i], telescope)
    ensures r.Some? ==> r.value in ss && IsActiveAt(r.value, telescope)
    ensures r.Some? ==> forall i :: 0 <= i < |ss| && IsActiveAt(ss[i], telescope) ==> ss[i].start <= r.value.start
  {
    var k := ActiveIndex(ss, telescope);
    if k.None? then None else Some(ss[k.value])
  }

  /** Whether (telescope, user) already has a queue entry. */
  predicate InQueue(q: seq<QueueEntry>, telescope: int, user: UserId)
  {
    exists i :: 0 <= i < |q| && q[i].telescope == telescope && q[i].user == user
  }

  /** Whether a telescope has any queue entry. */
  predicate HasWaiting(q: seq<QueueEntry>, telescope: int)
  {
    exists i :: 0 <= i < |q| && q[i].telescope == telescope
  }

  /** Index of the earliest entry of a telescope's queue
      (`order by timestamp_ingreso asc limit 1`; among equal timestamps the
      one inserted first). */
  function EarliestIndex(q: seq<QueueEntry>, telescope: int): (r: Option<nat>)
    ensures r.None? <==> !HasWaiting(q, telescope)
    ensures r.Some? ==> r.value < |q| && q[r.value].telescope == telescope
    ensures r.Some? ==> forall i :: 0 <= i < |q| && q[i].telescope == telescope ==> q[r.value].enqueued <= q[i].enqueued
    ensures r.Some? ==> forall i :: 0 <= i < r.value && q[i].telescope == telescope ==> q[r.value].enqueued < q[i].enqueued
  {
    FirstMaxIndex(q, (e: QueueEntry) => e.telescope == telescope, (e: QueueEntry) => -e.enqueued)
  }

  predicate IsInProgressOf(o: Observation, session: nat)
  {
    o.session == session && o.state == InProgress
  }

  /** Index of a session's newest "en curso" observation
      (`order by fecha_inicio desc limit 1`). */
  function InProgressIndex(os: seq<Observation>, session: nat): (r: Option<nat>)
    ensures r.None? <==> forall i :: 0 <= i < |os| ==> !IsInProgressOf(os[i], session)
    ensures r.Some? ==> r.value < |os| && IsInProgressOf(os[r.value], session)
    ensures r.Some? ==> forall i :: 0 <= i < |os| && IsInProgressOf(os[i], session) ==> os[i].start <= os[r.value].start
  {
    FirstMaxIndex(os, (o: Observation) => IsInProgressOf(o, session), (o: Observation) => o.start)
  }

  /** Index of the (first) observation with a given id. */
  function ObservationIndex(os: seq<Observation>, id: string): (r: Option<nat>)
    ensures r.None? <==> forall i :: 0 <= i < |os| ==> os[i].id != id
    ensures r.Some? ==> r.value < |os| && os[r.value].id == id
  {
    FirstMaxIndex(os, (o: Observation) => o.id == id, (o: Observation) => 0)
  }

  // ---------------------------------------------------------------------------
  // Updates and deletes (key-matched, over the whole table)

  /** The fields `sesion/finalizar` and `sesion/crear` write on a session. */
  function EndRow(s: Session, now: Time): Session
  {
    s.(state := Ended, end := Some(now), available := true)
  }

  /** `update telescopio_sesion set estado='finalizada', fin_sesion=now,
      disponible=true where id_usuario = user and estado = 'activa'`. */
  function EndActiveOf(ss: seq<Session>, user: UserId, now: Time): seq<Session>
  {
    seq(|ss|, i requires 0 <= i < |ss| =>
      if ss[i].user == user && ss[i].state == Active then EndRow(ss[i], now) else ss[i])
  }

  /** The same update `where id_sesion = id`. */
  function EndById(ss: seq<Session>, id: nat, now: Time): seq<Session>
  {
    seq(|ss|, i requires 0 <= i < |ss| => if ss[i].id == id then EndRow(ss[i], now) else ss[i])
  }

  /** `update telescopio_sesion set disponible = flag where id_sesion = id`. */
  function SetAvailableById(ss: seq<Session>, id: nat, flag: bool): seq<Session>
  {
    seq(|ss|, i requires 0 <= i < |ss| => if ss[i].id == id then ss[i].(available := flag) else ss[i])
  }

  /** `update telescopio_sesion set fin_sesion = end where id_sesion = id`. */
  function SetEndById(ss: seq<Session>, id: nat, end: Option<Time>): seq<Session>
  {
    seq(|ss|, i requires 0 <= i < |ss| => if ss[i].id == id then ss[i].(end := end) else ss[i])
  }

  /** `delete from queue where id_queue = id`. */
  function RemoveEntry(q: seq<QueueEntry>, id: nat): (r: seq<QueueEntry>)
    ensures |r| <= |q|
    ensures forall e :: e in r <==> e in q && e.id != id
  {
    if q == [] then []
    else if q[0].id == id then RemoveEntry(q[1..], id)
    else [q[0]] + RemoveEntry(q[1..], id)
  }

  /** `update observacion set estado='finalizada', fecha_fin=now where id_observacion = id`. */
  function FinishById(os: seq<Observation>, id: string, now: Time): seq<Observation>
  {
    seq(|os|, i requires 0 <= i < |os| =>
      if os[i].id == id then os[i].(state := Finished, end := Some(now)) else os[i])
  }

  /** `update observacion set foto_path = path where id_observacion = id`. */
  function SetPhotoById(os: seq<Observation>, id: string, path: string): seq<Observation>
  {
    seq(|os|, i requires 0 <= i < |os| => if os[i].id == id then os[i].(photo := Some(path)) else os[i])
  }

  /** `update observacion set descripcion = note where id_observacion = id`. */
  function SetNoteById(os: seq<Observation>, id: string, note: string): seq<Observation>
  {
    seq(|os|, i requires 0 <= i < |os| => if os[i].id == id then os[i].(note := Some(note)) else os[i])
  }

  /** `update observacion set coord_azimut = az, coord_altitud = alt where id_observacion = id`. */
  function SetCoordsById(os: seq<Observation>, id: string, az: Option<real>, alt: Option<real>): seq<Observation>
  {
    seq(|os|, i requires 0 <= i < |os| =>
      if os[i].id == id then os[i].(azimuth := az, altitude := alt) else os[i])
  }

  // ---------------------------------------------------------------------------
  // Key uniqueness

  predicate UniqueSessionIds(ss: seq<Session>)
  {
    forall i, j :: 0 <= i < j < |ss| ==> ss[i].id != ss[j].id
  }

  predicate UniqueEntryIds(q: seq<QueueEntry>)
  {
    forall i, j :: 0 <= i < j < |q| ==> q[i].id != q[j].id
  }

  predicate UniqueObservationIds(os: seq<Observation>)
  {
    forall i, j :: 0 <= i < j < |os| ==> os[i].id != os[j].id
  }

  /** Two versions of the observations table with the same ids in the same places. */
  predicate SameObservationIds(a: seq<Observation>, b: seq<Observation>)
  {
    |a| == |b| && forall i :: 0 <= i < |a| ==> a[i].id == b[i].id
  }

  /** An update that keeps every id keeps the ids unique. */
  /** The updates by id keep observation ids unique. */
  lemma UpdatesKeepIds(os: seq<Observation>, id: string, now: Time, path: string, note: string)
    requires UniqueObservationIds(os)
    ensures UniqueObservationIds(FinishById(os, id, now))
    ensures UniqueObservationIds(SetPhotoById(os, id, path))
    ensures UniqueObservationIds(SetNoteById(os, id, note))
  {
    SameObservationIdsUnique(os, FinishById(os, id, now));
    SameObservationIdsUnique(os, SetPhotoById(os, id, path));
    SameObservationIdsUnique(os, SetNoteById(os, id, note));
  }

  lemma SameObservationIdsUnique(a: seq<Observation>, b: seq<Observation>)
    requires SameObservationIds(a, b) && UniqueObservationIds(a)
    ensures UniqueObservationIds(b)
  {
    forall i, j | 0 <= i < j < |b|
      ensures b[i].id != b[j].id
    {
      assert a[i].id == b[i].id && a[j].id == b[j].id;
    }
  }

  /** Configuration rows are keyed by (telescope, kind). */
  predicate UniqueConfigKeys(rows: seq<ConfigRow>)
  {
    forall i, j :: 0 <= i < j < |rows| ==>
      rows[i].telescope != rows[j].telescope || rows[i].kind != rows[j].kind
  }

  /** With unique ids, an update by id touches exactly the named session. */
  lemma SetEndByIdTouchesOne(ss: seq<Session>, k: nat, end: Option<Time>)
    requires UniqueSessionIds(ss) && k < |ss|
    ensures SetEndById(ss, ss[k].id, end) == ss[k := ss[k].(end := end)]
  {
  }

  lemma EndByIdTouchesOne(ss: seq<Session>, k: nat, now: Time)
    requires UniqueSessionIds(ss) && k < |ss|
    ensures EndById(ss, ss[k].id, now) == ss[k := EndRow(ss[k], now)]
  {
  }

  lemma SetAvailableByIdTouchesOne(ss: seq<Session>, k: nat, flag: bool)
    requires UniqueSessionIds(ss) && k < |ss|
    ensures SetAvailableById(ss, ss[k].id, flag) == ss[k := ss[k].(available := flag)]
  {
  }

  /** With unique ids, deleting by the id of entry k removes exactly entry k
      and keeps the order of the rest. */
  lemma {:induction false} RemoveEntryAt(q: seq<QueueEntry>, k: nat)
    requires UniqueEntryIds(q) && k < |q|
    ensures RemoveEntry(q, q[k].id) == q[..k] + q[k + 1..]
  {
    if k == 0 {
      RemoveAbsent(q[1..], q[0].id);
      assert q[1..] == q[..0] + q[1..];
    } else {
      var id := q[k].id;
      assert q[0].id != id;
      assert RemoveEntry(q, id) == [q[0]] + RemoveEntry(q[1..], id);
      RemoveEntryAt(q[1..], k - 1);
      assert q[1..][k - 1].id == id;
      assert [q[0]] + (q[1..][..k - 1] + q[1..][k..]) == q[..k] + q[k + 1..];
    }
  }

  lemma {:induction false} RemoveAbsent(q: seq<QueueEntry>, id: nat)
    requires forall i :: 0 <= i < |q| ==> q[i].id != id
    ensures RemoveEntry(q, id) == q
  {
    if q != [] {
      RemoveAbsent(q[1..], id);
    }
  }

  /** Session ids are unique and drawn from 1 .. n-1. */
  predicate SessionsKeyed(ss: seq<Session>, n: nat)
  {
    UniqueSessionIds(ss) && forall i :: 0 <= i < |ss| ==> 0 < ss[i].id < n
  }

  /** Queue ids are unique and drawn from 1 .. n-1. */
  predicate QueueKeyed(q: seq<QueueEntry>, n: nat)
  {
    UniqueEntryIds(q) && forall i :: 0 <= i < |q| ==> 0 < q[i].id < n
  }

  /** Two tables that agree on every row's id. */
  predicate SameSessionIds(a: seq<Session>, b: seq<Session>)
  {
    |a| == |b| && forall i :: 0 <= i < |a| ==> a[i].id == b[i].id
  }

  lemma SameIdsKeyed(a: seq<Session>, b: seq<Session>, n: nat)
    requires SessionsKeyed(a, n) && SameSessionIds(a, b)
    ensures SessionsKeyed(b, n)
  {
  }

  lemma SessionsKeyedGrow(ss: seq<Session>, n: nat)
    requires SessionsKeyed(ss, n)
    ensures SessionsKeyed(ss, n + 1)
  {
  }

  lemma QueueKeyedGrow(q: seq<QueueEntry>, n: nat)
    requires QueueKeyed(q, n)
    ensures QueueKeyed(q, n + 1)
  {
  }

  lemma AppendSessionKeyed(ss: seq<Session>, n: nat, s: Session)
    requires SessionsKeyed(ss, n) && s.id == n && 0 < n
    ensures SessionsKeyed(ss + [s], n + 1)
  {
  }

  lemma AppendEntryKeyed(q: seq<QueueEntry>, n: nat, e: QueueEntry)
    requires QueueKeyed(q, n) && e.id == n && 0 < n
    ensures QueueKeyed(q + [e], n + 1)
  {
  }

  lemma RemoveAtKeyed(q: seq<QueueEntry>, k: nat, n: nat)
    requires QueueKeyed(q, n) && k < |q|
    ensures QueueKeyed(q[..k] + q[k + 1..], n + 1)
  {
    var r := q[..k] + q[k + 1..];
    forall i, j | 0 <= i < j < |r| ensures r[i].id != r[j].id {
      var i' := if i < k then i else i + 1;
      var j' := if j < k then j else j + 1;
      assert r[i] == q[i'] && r[j] == q[j'];
    }
  }

  // ---------------------------------------------------------------------------
  // Session lifecycle, as pure statements about the updates above

  /** After `sesion/crear` the caller owns exactly one active session: the new one. */
  lemma CreateLeavesOneActive(ss: seq<Session>, user: UserId, created: Session, now: Time)
    requires created.user == user && created.state == Active
    ensures var r := EndActiveOf(ss, user, now) + [created];
      forall i :: 0 <= i < |r| ==> (r[i].user == user && r[i].state == Active <==> i == |r| - 1)
  {
  }

  /** `sesion/crear` leaves every other user's sessions as they were and frees
      the caller's former sessions. */
  lemma EndActiveOfFrees(ss: seq<Session>, user: UserId, now: Time)
    ensures var r := EndActiveOf(ss, user, now);
      |r| == |ss| &&
      (forall i :: 0 <= i < |ss| && ss[i].user != user ==> r[i] == ss[i]) &&
      (forall i :: 0 <= i < |ss| && ss[i].user == user && ss[i].state == Active ==>
        r[i].state == Ended && r[i].available && r[i].end == Some(now))
  {
  }

  /** FIFO: among a telescope's entries the earliest timestamp is served
      first, and between equal timestamps the one inserted first. */
  lemma FifoOrder(q: seq<QueueEntry>, telescope: int, i: nat, j: nat)
    requires i < j < |q| && q[i].telescope == telescope && q[j].telescope == telescope
    requires q[i].enqueued <= q[j].enqueued
    ensures EarliestIndex(q, telescope) != Some(j)
  {
  }

  // ---------------------------------------------------------------------------
  // Configuration (pure parts of the config handlers)

  /** `(x or "")`. */
  function OrEmpty(s: Option<string>): string
  {
    if s.Some? then s.value else ""
  }

  /** The port `int(data.get("puerto") or 80)` yields, when it yields one. */
  function PortOf(p: PortField): Option<int>
  {
    match p
    case PortAbsent => Some(80)
    case PortInt(n) => if n == 0 then Some(80) else Some(n)
    case PortInvalid => None
  }

  /** Validation of `POST /api/telescopio/config`, in the handler's order:
      telescope id, port, kind, host. */
  function ValidateConfig(tel: IdField, kind: Option<string>, host: Option<string>, port: PortField, now: Time): (r: Result<ConfigRow>)
    ensures r.Ok? <==> tel.Given? && PortOf(port).Some? && IsKind(Trim(OrEmpty(kind))) && Trim(OrEmpty(host)) != ""
    ensures r.Ok? ==> r.value.telescope == tel.n && IsKind(r.value.kind) && r.value.updated == now
    ensures r.Ok? ==> r.value.host == Trim(OrEmpty(host)) && r.value.host != "" && Trimmed(r.value.host)
    ensures r.Ok? ==> Some(r.value.port) == PortOf(port) && (port.PortAbsent? ==> r.value.port == 80)
    ensures r.Err? ==> r.status == 400
    ensures !tel.Given? ==> r == Err(400, BadTelescope)
    ensures tel.Given? && port.PortInvalid? ==> r == Err(400, BadPort)
  {
    if !tel.Given? then Err(400, BadTelescope)
    else
      var k := Trim(OrEmpty(kind));
      var h := Trim(OrEmpty(host));
      var p := PortOf(port);
      if p.None? then Err(400, BadPort)
      else if !IsKind(k) then Err(400, BadKind)
      else if h == "" then Err(400, HostRequired)
      else Ok(ConfigRow(tel.n, k, h, p.value, now))
  }

  /** Index of the row with key (telescope, kind), if any. */
  function KeyIndex(rows: seq<ConfigRow>, telescope: int, kind: string): (r: Option<nat>)
    ensures r.None? <==> forall i :: 0 <= i < |rows| ==> rows[i].telescope != telescope || rows[i].kind != kind
    ensures r.Some? ==> r.value < |rows| && rows[r.value].telescope == telescope && rows[r.value].kind == kind
  {
    FirstMaxIndex(rows, (c: ConfigRow) => c.telescope == telescope && c.kind == kind, (c: ConfigRow) => 0)
  }

  /** `upsert ... on_conflict = "id_telescopio,tipo"`. */
  function Upsert(rows: seq<ConfigRow>, row: ConfigRow): (r: seq<ConfigRow>)
    ensures row in r
    ensures forall c :: c in r && c != row ==> c in rows
    ensures |r| == |rows| || |r| == |rows| + 1
  {
    var k := KeyIndex(rows, row.telescope, row.kind);
    if k.Some? then
      assert rows[k.value := row][k.value] == row;
      rows[k.value := row]
    else rows + [row]
  }

  /** Upserting keeps configuration keys unique. */
  lemma UpsertUnique(rows: seq<ConfigRow>, row: ConfigRow)
    requires UniqueConfigKeys(rows)
    ensures UniqueConfigKeys(Upsert(rows, row))
  {
    UpsertKeyed(rows, row);
  }

  /** An upsert keeps keys unique, leaves exactly one row with the new row's
      key (the new row) and every row with another key as it was. */
  lemma UpsertKeyed(rows: seq<ConfigRow>, row: ConfigRow)
    requires UniqueConfigKeys(rows)
    ensures var r := Upsert(rows, row);
      UniqueConfigKeys(r) &&
      row in r &&
      (forall c :: c in r && c.telescope == row.telescope && c.kind == row.kind ==> c == row) &&
      (forall c :: c in rows && (c.telescope != row.telescope || c.kind != row.kind) ==> c in r) &&
      (forall c :: c in r && c != row ==> c in rows)
  {
    var r := Upsert(rows, row);
    var k := KeyIndex(rows, row.telescope, row.kind);
    if k.Some? {
      assert r[k.value] == row;
      forall c | c in rows && (c.telescope != row.telescope || c.kind != row.kind) ensures c in r {
        var i :| 0 <= i < |rows| && rows[i] == c;
        assert r[i] == c;
      }
    }
  }

  /** The getter's fold `data[row["tipo"]] = {...}` over one telescope's rows,
      in table order (a later row of the same kind overwrites an earlier one). */
  function ConfigView(rows: seq<ConfigRow>, telescope: int): (m: map<string, Endpoint>)
    ensures forall k :: k in m <==> exists i :: 0 <= i < |rows| && rows[i].telescope == telescope && rows[i].kind == k
    decreases |rows|
  {
    if rows == [] then map[]
    else
      var last := rows[|rows| - 1];
      var m := ConfigView(rows[..|rows| - 1], telescope);
      if last.telescope == telescope then m[last.kind := Endpoint(last.host, last.port)] else m
  }

  /** With keys unique, the getter reports each kind's row exactly. */
  lemma {:induction false} ConfigViewExact(rows: seq<ConfigRow>, telescope: int, i: nat)
    requires UniqueConfigKeys(rows) && i < |rows| && rows[i].telescope == telescope
    ensures ConfigView(rows, telescope)[rows[i].kind] == Endpoint(rows[i].host, rows[i].port)
    decreases |rows|
  {
    var init := rows[..|rows| - 1];
    if i < |rows| - 1 {
      assert init[i] == rows[i];
      ConfigViewExact(init, telescope, i);
    }
  }

  /** `obtener_url_controlador(tipo)`: the first configuration row of that kind
      on ANY telescope; an error when there is none or its host is empty; a
      zero (null) port becomes 80. */
  function ControllerUrl(rows: seq<ConfigRow>, kind: string): (r: Result<string>)
    ensures var k := FirstMaxIndex(rows, (c: ConfigRow) => c.kind == kind, (c: ConfigRow) => 0);
      (r.Ok? <==> k.Some? && rows[k.value].host != "") &&
      (r.Ok? ==> r.value == "http://" + rows[k.value].host + ":" + PortText(rows[k.value].port))
  {
    var k := FirstMaxIndex(rows, (c: ConfigRow) => c.kind == kind, (c: ConfigRow) => 0);
    if k.None? then Err(500, "No existe configuración para tipo='" + kind + "' en telescopio_config")
    else if rows[k.value].host == "" then Err(500, "Configuración incompleta para tipo='" + kind + "' (host)")
    else Ok("http://" + rows[k.value].host + ":" + PortText(rows[k.value].port))
  }

  /** The port as written in a controller URL: 80 when missing (zero). */
  function PortText(port: int): (r: string)
    ensures port == 0 ==> r == "80"
    ensures port != 0 ==> r == IntToString(port)
  {
    if port == 0 then "80" else IntToString(port)
  }

  /** A row without a host never yields a URL; a stored row yields one that
      names its host and port. */
  lemma ControllerUrlOfSingleRow(row: ConfigRow)
    ensures ControllerUrl([row], row.kind).Ok? <==> row.host != ""
    ensures row.host != "" ==> ControllerUrl([row], row.kind) == Ok("http://" + row.host + ":" + PortText(row.port))
  {
  }

  // ---------------------------------------------------------------------------
  // Photo naming and storage (subir_foto_y_guardar_path)

  /** Whether the camera's reply is accepted as a photo. */
  predicate CamAccepts(status: int, size: nat)
  {
    status == 200 && size >= 5000
  }

  /** `(objeto_celeste or "astro").lower().replace(" ", "_")`. */
  function ObjectSlug(target: string): (r: string)
    ensures |r| > 0
    ensures target == "" ==> r == "astro"
    ensures target != "" ==> |r| == |target|
    ensures forall i :: 0 <= i < |r| ==> r[i] != ' ' && !('A' <= r[i] <= 'Z')
    ensures target != "" ==> forall i :: 0 <= i < |r| ==> r[i] == (if target[i] == ' ' then '_' else LowerChar(target[i]))
  {
    ReplaceChar(Lower(if target == "" then "astro" else target), ' ', '_')
  }

  /** `id.split("-")[0]`: the id up to its first '-'. */
  function ShortId(id: string): (r: string)
    ensures |r| <= |id| && r == id[..|r|]
    ensures forall i :: 0 <= i < |r| ==> r[i] != '-'
    ensures |r| < |id| ==> id[|r|] == '-'
  {
    if id == [] || id[0] == '-' then "" else [id[0]] + ShortId(id[1..])
  }

  /** `observaciones/{fecha}/{objeto}_{fecha}_obs_{short_id}.jpg`: filed under
      the day's folder, carrying the slug and the short id, and always naming
      a JPEG. */
  function PhotoPath(target: string, day: string, id: string): (p: string)
    ensures var folder := "observaciones/" + day + "/";
      var tail := "_obs_" + ShortId(id) + ".jpg";
      |p| == |folder| + |ObjectSlug(target)| + 1 + |day| + |tail| && p[..|folder|] == folder && p[|p| - |tail|..] == tail &&
      p[|folder|..|folder| + |ObjectSlug(target)|] == ObjectSlug(target) &&
      p[|folder| + |ObjectSlug(target)|..|p| - |tail|] == "_" + day
  {
    PartsOfFour(PhotoFolder(day), ObjectSlug(target), "_" + day, PhotoSuffix(id));
    PhotoFolder(day) + ObjectSlug(target) + ("_" + day) + PhotoSuffix(id)
  }

  /** The day's folder of the photo path. */
  function PhotoFolder(day: string): string
  {
    "observaciones/" + day + "/"
  }

  /** The end of the photo path's file name. */
  function PhotoSuffix(id: string): string
  {
    "_obs_" + ShortId(id) + ".jpg"
  }

  /** The first, second and last parts of a four-part concatenation. */
  lemma PartsOfFour(a: string, b: string, c: string, d: string)
    ensures var s := a + b + c + d;
      |s| == |a| + |b| + |c| + |d| &&
      s[..|a|] == a && s[|a|..|a| + |b|] == b && s[|a| + |b|..|s| - |d|] == c && s[|s| - |d|..] == d
  {
  }

  /** An id with no '-' is its own short id; otherwise it is cut at the first '-'. */
  lemma {:induction false} ShortIdCut(prefix: string, rest: string)
    requires forall i :: 0 <= i < |prefix| ==> prefix[i] != '-'
    ensures ShortId(prefix) == prefix
    ensures ShortId(prefix + "-" + rest) == prefix
  {
    if prefix != [] {
      ShortIdCut(prefix[1..], rest);
      assert (prefix + "-" + rest)[1..] == prefix[1..] + "-" + rest;
    } else {
      assert (prefix + "-" + rest)[0] == '-';
    }
  }

  /** The outcome of the photo attempt: the stored path, or the text of the
      RuntimeError/exception that stopped it. `uploadError` is the storage
      upload's exception text, if it raised. */
  function PhotoAttempt(rows: seq<ConfigRow>, os: seq<Observation>, id: string, cam: CamReply, uploadError: Option<string>, day: string): (r: Result<string>)
    ensures r.Ok? ==> ControllerUrl(rows, "esp32_cam").Ok?
    ensures r.Ok? ==> cam.CamReply? && CamAccepts(cam.status, cam.size) && uploadError.None?
    ensures r.Ok? ==> exists i :: 0 <= i < |os| && os[i].id == id && r.value == PhotoPath(os[i].target, day, id)
    ensures cam.CamReply? && cam.status != 200 && ControllerUrl(rows, "esp32_cam").Ok? ==>
      r == Err(500, "No se pudo obtener photo.jpg de la cam (HTTP " + IntToString(cam.status) + ")")
    ensures (ControllerUrl(rows, "esp32_cam").Ok? && cam.CamReply? && CamAccepts(cam.status, cam.size) &&
             ObservationIndex(os, id).Some? && uploadError.None?) ==>
      r == Ok(PhotoPath(os[ObservationIndex(os, id).value].target, day, id))
  {
    var url := ControllerUrl(rows, "esp32_cam");
    if url.Err? then Err(500, url.message)
    else match cam
      case CamUnreachable(msg) => Err(500, msg)
      case CamReply(status, size) =>
        if status != 200 then Err(500, "No se pudo obtener photo.jpg de la cam (HTTP " + IntToString(status) + ")")
        else if size < 5000 then Err(500, PhotoTooSmall)
        else
          var k := ObservationIndex(os, id);
          if k.None? then Err(500, SingleRowMissing)
          else if uploadError.Some? then Err(500, uploadError.value)
          else Ok(PhotoPath(os[k.value].target, day, id))
  }

  /** The warning stored and returned when the photo attempt fails. */
  function PhotoWarning(reason: string): string
  {
    "No se pudo subir foto: " + reason
  }

  /** The observations table after `observacion/finalizar` has resolved id. */
  function AfterFinish(os: seq<Observation>, rows: seq<ConfigRow>, id: string, cam: CamReply, uploadError: Option<string>, now: Time, day: string): seq<Observation>
  {
    var finished := FinishById(os, id, now);
    var p := PhotoAttempt(rows, finished, id, cam, uploadError, day);
    if p.Ok? then SetPhotoById(finished, id, p.value) else SetNoteById(finished, id, PhotoWarning(p.message))
  }

  /** Finalizing never depends on the photo: every row with the id ends up
      "finalizada" with the end time, a failed photo only adds the warning to
      its `descripcion` and leaves `foto_path` alone, and no other row changes. */
  lemma FinishSurvivesPhotoFailure(os: seq<Observation>, rows: seq<ConfigRow>, id: string, cam: CamReply, uploadError: Option<string>, now: Time, day: string)
    ensures var r := AfterFinish(os, rows, id, cam, uploadError, now, day);
      var p := PhotoAttempt(rows, FinishById(os, id, now), id, cam, uploadError, day);
      |r| == |os| &&
      (forall i :: 0 <= i < |os| && os[i].id == id ==> r[i].state == Finished && r[i].end == Some(now)) &&
      (forall i :: 0 <= i < |os| && os[i].id != id ==> r[i] == os[i]) &&
      (p.Err? ==> forall i :: 0 <= i < |os| && os[i].id == id ==>
        r[i].photo == os[i].photo && r[i].note == Some(PhotoWarning(p.message))) &&
      (p.Ok? ==> forall i :: 0 <= i < |os| && os[i].id == id ==> r[i].photo == Some(p.value))
  {
    var finished := FinishById(os, id, now);
    FinishThenRecord(os, id, now, PhotoAttempt(rows, finished, id, cam, uploadError, day));
  }

  /** The rows after finishing and then recording a photo outcome `p`. */
  lemma FinishThenRecord(os: seq<Observation>, id: string, now: Time, p: Result<string>)
    ensures var finished := FinishById(os, id, now);
      var r := if p.Ok? then SetPhotoById(finished, id, p.value) else SetNoteById(finished, id, PhotoWarning(p.message));
      |r| == |os| &&
      (forall i :: 0 <= i < |os| && os[i].id == id ==> r[i].state == Finished && r[i].end == Some(now)) &&
      (forall i :: 0 <= i < |os| && os[i].id != id ==> r[i] == os[i]) &&
      (p.Err? ==> forall i :: 0 <= i < |os| && os[i].id == id ==>
        r[i].photo == os[i].photo && r[i].note == Some(PhotoWarning(p.message))) &&
      (p.Ok? ==> forall i :: 0 <= i < |os| && os[i].id == id ==> r[i].photo == Some(p.value))
  {
  }

  /** A camera reply that is not 200, or is smaller than 5000 bytes, never
      produces a photo. */
  lemma RejectedPhoto(rows: seq<ConfigRow>, os: seq<Observation>, id: string, status: int, size: nat, uploadError: Option<string>, day: string)
    requires !CamAccepts(status, size)
    ensures PhotoAttempt(rows, os, id, CamReply(status, size), uploadError, day).Err?
  {
  }

  /** Which id `observacion/finalizar` finalizes: the first present of
      `id_observacion`, `idObservacion`, `id`; else the session's newest
      "en curso" observation; 400 without both, 404 without such an observation. */
  function ResolveObservation(req: FinishRequest, os: seq<Observation>): (r: Result<string>)
    ensures Present(req.idObservacion) ==> r == Ok(req.idObservacion.value)
    ensures !Present(req.idObservacion) && Present(req.idObservacionCamel) ==> r == Ok(req.idObservacionCamel.value)
    ensures !Present(req.idObservacion) && !Present(req.idObservacionCamel) && Present(req.id) ==> r == Ok(req.id.value)
    ensures r.Err? ==> !Present(req.idObservacion) && !Present(req.idObservacionCamel) && !Present(req.id)
    ensures r.Err? ==> (r.status == 400 <==> req.idSesion.None? || req.idSesion == Some(0))
    ensures r.Err? && r.status != 400 ==>
      r == Err(404, NoObservationInProgress) &&
      forall i :: 0 <= i < |os| ==> !IsInProgressOf(os[i], req.idSesion.value)
    ensures r.Ok? && !Present(req.idObservacion) && !Present(req.idObservacionCamel) && !Present(req.id) ==>
      req.idSesion.Some? && InProgressIndex(os, req.idSesion.value).Some? &&
      r == Ok(os[InProgressIndex(os, req.idSesion.value).value].id)
  {
    if Present(req.idObservacion) then Ok(req.idObservacion.value)
    else if Present(req.idObservacionCamel) then Ok(req.idObservacionCamel.value)
    else if Present(req.id) then Ok(req.id.value)
    else if req.idSesion.None? || req.idSesion.value == 0 then Err(400, MissingFinishTarget)
    else
      var k := InProgressIndex(os, req.idSesion.value);
      if k.None? then Err(404, NoObservationInProgress) else Ok(os[k.value].id)
  }

  // ---------------------------------------------------------------------------
  // Reading observations

  /** `GET /api/observacion/<id>/foto` up to the signed URL: 404 when there is
      no such observation, 403 when it belongs to someone else (checked before
      the photo), 404 when it has no photo; otherwise the stored path. */
  function PhotoAccess(os: seq<Observation>, id: string, user: UserId): (r: Result<string>)
    ensures var k := ObservationIndex(os, id);
      (k.None? ==> r == Err(404, ObservationNotFound)) &&
      (k.Some? && os[k.value].controller != user ==> r == Err(403, NotAuthorized)) &&
      (r.Ok? ==> k.Some? && os[k.value].controller == user && os[k.value].photo == Some(r.value) && r.value != "") &&
      (k.Some? && os[k.value].controller == user && Present(os[k.value].photo) ==> r == Ok(os[k.value].photo.value)) &&
      (k.Some? && os[k.value].controller == user && !Present(os[k.value].photo) ==> r == Err(404, NoPhoto))
    ensures r.Err? ==> r.status == 403 || r.status == 404
  {
    var k := ObservationIndex(os, id);
    if k.None? then Err(404, ObservationNotFound)
    else if os[k.value].controller != user then Err(403, NotAuthorized)
    else if !Present(os[k.value].photo) then Err(404, NoPhoto)
    else Ok(os[k.value].photo.value)
  }

  predicate MatchesText(o: Observation, q: string)
  {
    Contains(Lower(o.target), q)
  }

  function KeepMatching(rows: seq<Observation>, q: string): (r: seq<Observation>)
    ensures |r| <= |rows|
    ensures forall o :: o in r <==> o in rows && MatchesText(o, q)
  {
    if rows == [] then []
    else if MatchesText(rows[0], q) then [rows[0]] + KeepMatching(rows[1..], q)
    else KeepMatching(rows[1..], q)
  }

  /** Keeping the matching rows of two tables one after the other is keeping
      those of each, in order. */
  lemma {:induction false} KeepMatchingAppend(a: seq<Observation>, b: seq<Observation>, q: string)
    ensures KeepMatching(a + b, q) == KeepMatching(a, q) + KeepMatching(b, q)
    decreases |a|
  {
    if a != [] {
      assert (a + b)[0] == a[0];
      assert (a + b)[1..] == a[1..] + b;
      KeepMatchingAppend(a[1..], b, q);
    } else {
      assert a + b == b;
    }
  }

  /** One row is kept exactly when it matches. */
  lemma KeepMatchingSingle(o: Observation, q: string)
    ensures KeepMatching([o], q) == if MatchesText(o, q) then [o] else []
  {
    assert [o][1..] == [];
  }

  /** The text filter of `GET /api/observaciones`, applied in Python to the rows
      the store returned: `q` is trimmed and lower-cased; an empty `q` keeps
      everything, otherwise a row stays exactly when its lower-cased object
      name contains `q`. */
  function FilterByText(rows: seq<Observation>, raw: string): (r: seq<Observation>)
    ensures Lower(Trim(raw)) == "" ==> r == rows
    ensures Lower(Trim(raw)) != "" ==> forall o :: o in r <==> o in rows && MatchesText(o, Lower(Trim(raw)))
  {
    var q := Lower(Trim(raw));
    if q == "" then rows else KeepMatching(rows, q)
  }

  /** The filter keeps the rows' order: filtering a concatenation is
      concatenating the filtered parts. */
  lemma FilterByTextAppend(a: seq<Observation>, b: seq<Observation>, raw: string)
    ensures FilterByText(a + b, raw) == FilterByText(a, raw) + FilterByText(b, raw)
  {
    if Lower(Trim(raw)) != "" {
      KeepMatchingAppend(a, b, Lower(Trim(raw)));
    }
  }

  /** A single row is kept exactly when the query is empty or it matches. */
  lemma FilterByTextSingle(o: Observation, raw: string)
    ensures FilterByText([o], raw) ==
      if Lower(Trim(raw)) == "" || MatchesText(o, Lower(Trim(raw))) then [o] else []
  {
    KeepMatchingSingle(o, Lower(Trim(raw)));
  }

  /** The filter ignores case in the row's object name. */
  lemma FilterIgnoresCase(o: Observation, raw: string)
    requires Lower(Trim(raw)) != ""
    ensures o in FilterByText([o], raw) <==> o.(target := Lower(o.target)) in FilterByText([o.(target := Lower(o.target))], raw)
  {
    var low := Lower(o.target);
    assert Lower(low) == low;
  }

  // ---------------------------------------------------------------------------
  // The store and its handlers

  class Store {
    var sessions: seq<Session>
    var queue: seq<QueueEntry>
    var observations: seq<Observation>
    var configs: seq<ConfigRow>
    /** The next id the store hands out for a session or queue row. */
    var nextId: nat

    ghost predicate Valid()
      reads this
    {
      && 0 < nextId
      && SessionsKeyed(sessions, nextId)
      && QueueKeyed(queue, nextId)
      && UniqueObservationIds(observations)
      && UniqueConfigKeys(configs)
    }

    constructor ()
      ensures Valid()
      ensures sessions == [] && queue == [] && observations == [] && configs == [] && nextId == 1
    {
      sessions, queue, observations, configs := [], [], [], [];
      nextId := 1;
    }

    /** `POST /api/acceso/solicitar`. */
    method RequestAccess(tel: IdField, user: UserId, now: Time) returns (r: Result<AccessReply>)
      requires Valid()
      modifies this`sessions, this`queue, this`nextId
      ensures Valid()
      ensures !tel.Given? ==> r == Err(400, BadTelescope) && unchanged(this)
      ensures tel.Given? && ActiveIndex(old(sessions), tel.n).None? ==>
        r == Ok(Direct(Session(old(nextId), tel.n, user, now, None, Active, true))) &&
        sessions == old(sessions) + [r.value.session] && queue == old(queue)
      ensures tel.Given? && ActiveIndex(old(sessions), tel.n).Some? && InQueue(old(queue), tel.n, user) ==>
        r == Ok(Queued(None)) && unchanged(this)
      ensures tel.Given? && ActiveIndex(old(sessions), tel.n).Some? && !InQueue(old(queue), tel.n, user) ==>
        var cur := old(sessions)[ActiveIndex(old(sessions), tel.n).value];
        r == Ok(Queued(Some(QueueEntry(old(nextId), tel.n, user, now)))) &&
        queue == old(queue) + [r.value.entry.value] &&
        sessions == (if cur.end.None? then old(sessions)[ActiveIndex(old(sessions), tel.n).value := cur.(end := Some(now + TenMinutes))]
                     else old(sessions))
    {
      if !tel.Given? {
        r := Err(400, BadTelescope);
      } else {
        var k := ActiveIndex(sessions, tel.n);
        if k.None? {
          var s := OpenSession(tel.n, user, now);
          r := Ok(Direct(s));
        } else if InQueue(queue, tel.n, user) {
          r := Ok(Queued(None));
        } else {
          var e := JoinQueue(tel.n, user, now);
          TimeBox(k.value, now);
          r := Ok(Queued(Some(e)));
        }
      }
    }

    /** Opens an unlimited session for `user`. */
    method OpenSession(t: int, user: UserId, now: Time) returns (s: Session)
      requires Valid()
      modifies this`sessions, this`nextId
      ensures Valid()
      ensures s == Session(old(nextId), t, user, now, None, Active, true)
      ensures sessions == old(sessions) + [s] && nextId == old(nextId) + 1
    {
      s := Session(nextId, t, user, now, None, Active, true);
      AppendSessionKeyed(sessions, nextId, s);
      QueueKeyedGrow(queue, nextId);
      sessions := sessions + [s];
      nextId := nextId + 1;
    }

    /** Appends `user` to the queue of telescope `t`. */
    method JoinQueue(t: int, user: UserId, now: Time) returns (e: QueueEntry)
      requires Valid()
      modifies this`queue, this`nextId
      ensures Valid()
      ensures e == QueueEntry(old(nextId), t, user, now)
      ensures queue == old(queue) + [e] && nextId == old(nextId) + 1
    {
      e := QueueEntry(nextId, t, user, now);
      AppendEntryKeyed(queue, nextId, e);
      SessionsKeyedGrow(sessions, nextId);
      queue := queue + [e];
      nextId := nextId + 1;
    }

    /** Time-boxes the session at index `k` to ten minutes from `now`, unless
      it already has an end. */
    method TimeBox(k: nat, now: Time)
      requires Valid() && k < |sessions|
      modifies this`sessions
      ensures Valid()
      ensures var cur := old(sessions)[k];
        sessions == (if cur.end.None? then old(sessions)[k := cur.(end := Some(now + TenMinutes))] else old(sessions))
    {
      var cur := sessions[k];
      if cur.end.None? {
        SetEndByIdTouchesOne(sessions, k, Some(now + TenMinutes));
        SameIdsKeyed(sessions, SetEndById(sessions, cur.id, Some(now + TenMinutes)), nextId);
        sessions := SetEndById(sessions, cur.id, Some(now + TenMinutes));
      }
    }

    /** `POST /api/cola/entrar`. */
    method EnterQueue(tel: IdField, user: UserId, now: Time) returns (r: Result<QueueEntry>)
      requires Valid()
      modifies this`queue, this`nextId
      ensures Valid()
      ensures !tel.Given? ==> r == Err(400, BadTelescope) && unchanged(this)
      ensures tel.Given? && InQueue(old(queue), tel.n, user) ==> r == Err(409, DuplicateEntry) && unchanged(this)
      ensures tel.Given? && !InQueue(old(queue), tel.n, user) ==>
        r == Ok(QueueEntry(old(nextId), tel.n, user, now)) && queue == old(queue) + [r.value]
    {
      if !tel.Given? {
        return Err(400, BadTelescope);
      }
      if InQueue(queue, tel.n, user) {
        return Err(409, DuplicateEntry);
      }
      var e := QueueEntry(nextId, tel.n, user, now);
      AppendEntryKeyed(queue, nextId, e);
      SessionsKeyedGrow(sessions, nextId);
      queue := queue + [e];
      nextId := nextId + 1;
      return Ok(e);
    }

    /** `POST /api/cola/asignar`: promotes the earliest entry into a new active
      session without looking at any session already active. The new session
      is time-boxed when others still wait and unlimited otherwise. */
    method AssignNext(tel: IdField, now: Time) returns (r: Result<Option<Session>>)
      requires Valid()
      modifies this`sessions, this`queue, this`nextId
      ensures Valid()
      ensures (tel.Absent? || tel == Given(0)) ==> r == Err(400, MissingTelescope) && unchanged(this)
      ensures tel.Malformed? ==> r == Err(400, BadTelescope) && unchanged(this)
      ensures tel.Given? && tel.n != 0 && EarliestIndex(old(queue), tel.n).None? ==> r == Ok(None) && unchanged(this)
      ensures tel.Given? && tel.n != 0 && EarliestIndex(old(queue), tel.n).Some? ==>
        var k := EarliestIndex(old(queue), tel.n).value;
        queue == old(queue)[..k] + old(queue)[k + 1..] &&
        var s := Session(old(nextId), tel.n, old(queue)[k].user, now,
                         if HasWaiting(queue, tel.n) then Some(now + TenMinutes) else None, Active, true);
        sessions == old(sessions) + [s] && r == Ok(Some(s))
    {
      if tel.Absent? || tel == Given(0) {
        r := Err(400, MissingTelescope);
      } else if tel.Malformed? {
        r := Err(400, BadTelescope);
      } else {
        var k := EarliestIndex(queue, tel.n);
        if k.None? {
          r := Ok(None);
        } else {
          var s := Promote(tel.n, k.value, now);
          r := Ok(Some(s));
        }
      }
    }

    /** Promotes the queue entry at index `k`: removes it and opens a session
      for its user, time-boxed when others still wait. */
    method Promote(t: int, k: nat, now: Time) returns (s: Session)
      requires Valid() && k < |queue|
      modifies this`sessions, this`queue, this`nextId
      ensures Valid()
      ensures queue == old(queue)[..k] + old(queue)[k + 1..]
      ensures s == Session(old(nextId), t, old(queue)[k].user, now,
                           if HasWaiting(queue, t) then Some(now + TenMinutes) else None, Active, true)
      ensures sessions == old(sessions) + [s]
    {
      var next := queue[k];
      RemoveEntryAt(queue, k);
      RemoveAtKeyed(queue, k, nextId);
      queue := RemoveEntry(queue, next.id);
      var end := if HasWaiting(queue, t) then Some(now + TenMinutes) else None;
      s := Session(nextId, t, next.user, now, end, Active, true);
      AppendSessionKeyed(sessions, nextId, s);
      sessions := sessions + [s];
      nextId := nextId + 1;
    }

    /** `POST /api/sesion/crear`: ends every active session of the caller, then
      opens an unlimited one on the requested telescope. */
    method CreateSession(tel: IdField, user: UserId, now: Time) returns (r: Result<()>)
      requires Valid()
      modifies this`sessions, this`nextId
      ensures Valid()
      ensures !tel.Given? ==> r == Err(400, BadTelescope) && unchanged(this)
      ensures tel.Given? ==>
        r == Ok(()) &&
        sessions == EndActiveOf(old(sessions), user, now) + [Session(old(nextId), tel.n, user, now, None, Active, true)]
    {
      if !tel.Given? {
        return Err(400, BadTelescope);
      }
      SameIdsKeyed(sessions, EndActiveOf(sessions, user, now), nextId);
      sessions := EndActiveOf(sessions, user, now);
      AppendSessionKeyed(sessions, nextId, Session(nextId, tel.n, user, now, None, Active, true));
      QueueKeyedGrow(queue, nextId);
      sessions := sessions + [Session(nextId, tel.n, user, now, None, Active, true)];
      nextId := nextId + 1;
      return Ok(());
    }

    /** `POST /api/sesion/finalizar`: ends the named session whether or not it
      was already ended (an ended one gets a new end time). */
    method EndSession(id: Option<nat>, now: Time) returns (r: Result<()>)
      requires Valid()
      modifies this`sessions
      ensures Valid()
      ensures (id.None? || id == Some(0)) ==> r == Err(400, MissingSession) && unchanged(this)
      ensures id.Some? && id.value != 0 ==> r == Ok(()) && sessions == EndById(old(sessions), id.value, now)
    {
      if id.None? || id.value == 0 {
        return Err(400, MissingSession);
      }
      SameIdsKeyed(sessions, EndById(sessions, id.value, now), nextId);
      sessions := EndById(sessions, id.value, now);
      return Ok(());
    }

    /** `POST /api/sesion/disponible`: sets the busy flag of the named session,
      with no check of who owns it. */
    method SetAvailable(id: Option<nat>, flag: Option<bool>) returns (r: Result<()>)
      requires Valid()
      modifies this`sessions
      ensures Valid()
      ensures (id.None? || flag.None?) ==> r == Err(400, MissingAvailability) && unchanged(this)
      ensures id.Some? && flag.Some? ==> r == Ok(()) && sessions == SetAvailableById(old(sessions), id.value, flag.value)
    {
      if id.None? || flag.None? {
        return Err(400, MissingAvailability);
      }
      SameIdsKeyed(sessions, SetAvailableById(sessions, id.value, flag.value), nextId);
      sessions := SetAvailableById(sessions, id.value, flag.value);
      return Ok(());
    }

    /** `POST /api/observacion/en-curso`: inserts an "en curso" observation for
      the session and replies with the session's newest one. `freshId` is the
      id the store generates for the row. */
    method StartObservation(idSesion: Option<nat>, target: string, start: Option<Time>, user: UserId, now: Time,
                            freshId: string, azimuth: Option<real>, altitude: Option<real>)
      returns (r: Result<Option<Observation>>)
      requires Valid()
      requires forall i :: 0 <= i < |observations| ==> observations[i].id != freshId
      modifies this`observations
      ensures Valid()
      ensures (idSesion.None? || idSesion == Some(0) || target == "") ==> r == Err(400, MissingStartFields) && unchanged(this)
      ensures idSesion.Some? && idSesion.value != 0 && target != "" ==>
        var o := Observation(freshId, idSesion.value, target, if start.Some? then start.value else now,
                             InProgress, user, azimuth, altitude, None, None, None);
        observations == old(observations) + [o] &&
        r.Ok? && r.value.Some? && IsInProgressOf(r.value.value, idSesion.value) && r.value.value in observations &&
        o.start <= r.value.value.start &&
        InProgressIndex(observations, idSesion.value).Some? &&
        r == Ok(Some(observations[InProgressIndex(observations, idSesion.value).value]))
    {
      if idSesion.None? || idSesion.value == 0 || target == "" {
        return Err(400, MissingStartFields);
      }
      var o := Observation(freshId, idSesion.value, target, if start.Some? then start.value else now,
                           InProgress, user, azimuth, altitude, None, None, None);
      observations := observations + [o];
      var k := InProgressIndex(observations, idSesion.value);
      assert IsInProgressOf(observations[|observations| - 1], idSesion.value);
      return Ok(Some(observations[k.value]));
    }

    /** `POST /api/observacion/finalizar`: resolves the id, finalizes the
      observation, then tries the photo; a failed photo is only a warning. */
    method FinishObservation(req: FinishRequest, cam: CamReply, uploadError: Option<string>, now: Time, day: string)
      returns (r: Result<FinishReply>)
      requires Valid()
      modifies this`observations
      ensures Valid()
      ensures var res := ResolveObservation(req, old(observations));
        (res.Err? ==> r == Err(res.status, res.message) && unchanged(this)) &&
        (res.Ok? ==>
          var p := PhotoAttempt(configs, FinishById(old(observations), res.value, now), res.value, cam, uploadError, day);
          observations == AfterFinish(old(observations), configs, res.value, cam, uploadError, now, day) &&
          r == Ok(FinishReply(res.value, if p.Ok? then None else Some(PhotoWarning(p.message)))))
    {
      var res := ResolveObservation(req, observations);
      if res.Err? {
        r := Err(res.status, res.message);
      } else {
        var warning := FinishAndPhoto(res.value, cam, uploadError, now, day);
        r := Ok(FinishReply(res.value, warning));
      }
    }

    /** Finalizes the observation `id`, then stores its photo path, or the
      photo failure as a note; the warning is that note. */
    method FinishAndPhoto(id: string, cam: CamReply, uploadError: Option<string>, now: Time, day: string)
      returns (warning: Option<string>)
      requires Valid()
      modifies this`observations
      ensures Valid()
      ensures var p := PhotoAttempt(configs, FinishById(old(observations), id, now), id, cam, uploadError, day);
        observations == AfterFinish(old(observations), configs, id, cam, uploadError, now, day) &&
        warning == (if p.Ok? then None else Some(PhotoWarning(p.message)))
    {
      var finished := FinishById(observations, id, now);
      UpdatesKeepIds(observations, id, now, "", "");
      observations := finished;
      var p := PhotoAttempt(configs, finished, id, cam, uploadError, day);
      if p.Ok? {
        UpdatesKeepIds(finished, id, now, p.value, "");
        observations := SetPhotoById(finished, id, p.value);
        warning := None;
      } else {
        UpdatesKeepIds(finished, id, now, "", PhotoWarning(p.message));
        observations := SetNoteById(finished, id, PhotoWarning(p.message));
        warning := Some(PhotoWarning(p.message));
      }
    }

    /** `POST /api/observacion/coords`: writes both coordinates (null when
      absent from the request). */
    method SaveCoords(id: Option<string>, azimuth: Option<real>, altitude: Option<real>) returns (r: Result<()>)
      requires Valid()
      modifies this`observations
      ensures Valid()
      ensures !Present(id) ==> r == Err(400, MissingObservationId) && unchanged(this)
      ensures Present(id) ==> r == Ok(()) && observations == SetCoordsById(old(observations), id.value, azimuth, altitude)
    {
      if !Present(id) {
        return Err(400, MissingObservationId);
      }
      SameObservationIdsUnique(observations, SetCoordsById(observations, id.value, azimuth, altitude));
      observations := SetCoordsById(observations, id.value, azimuth, altitude);
      return Ok(());
    }

    /** `POST /api/telescopio/config`. */
    method SaveConfig(tel: IdField, kind: Option<string>, host: Option<string>, port: PortField, now: Time)
      returns (r: Result<()>)
      requires Valid()
      modifies this`configs
      ensures Valid()
      ensures var v := ValidateConfig(tel, kind, host, port, now);
        (v.Err? ==> r == Err(v.status, v.message) && unchanged(this)) &&
        (v.Ok? ==> r == Ok(()) && configs == Upsert(old(configs), v.value))
    {
      var v := ValidateConfig(tel, kind, host, port, now);
      r := ApplyConfig(v);
    }

    /** Stores a validated row, or passes the validation error on. */
    method ApplyConfig(v: Result<ConfigRow>) returns (r: Result<()>)
      requires Valid()
      modifies this`configs
      ensures Valid()
      ensures v.Err? ==> r == Err(v.status, v.message) && unchanged(this)
      ensures v.Ok? ==> r == Ok(()) && configs == Upsert(old(configs), v.value)
    {
      if v.Ok? {
        UpsertUnique(configs, v.value);
        configs := Upsert(configs, v.value);
        r := Ok(());
      } else {
        r := Err(v.status, v.message);
      }
    }

  }

  // ---------------------------------------------------------------------------
  // Scenarios over the handlers

  /** Two users ask for telescope 1 in turn: the first gets an unlimited
      session, the second queues, which time-boxes the first session. */
  method ContestedTelescope() returns (st: Store, s1: Session, e: QueueEntry)
    ensures fresh(st) && st.Valid()
    ensures s1.user == 1 && IsActiveAt(s1, 1) && s1.end.None?
    ensures e.user == 2 && e.telescope == 1
    ensures st.sessions == [s1.(end := Some(2000 + TenMinutes))] && st.queue == [e]
  {
    st := new Store();
    var a := st.RequestAccess(Given(1), 1, 1000);
    s1 := a.value.session;
    assert st.sessions == [s1] && st.queue == [] && s1.user == 1;
    var b := st.RequestAccess(Given(1), 2, 2000);
    assert ActiveIndex([s1], 1) == Some(0);
    e := b.value.entry.value;
  }

  /** The holder of telescope 1 asks for it again: nothing stops them from
      queueing behind their own session, which time-boxes it. */
  method SelfQueueScenario() returns (st: Store, s1: Session, e: QueueEntry)
    ensures fresh(st) && st.Valid()
    ensures s1.user == 1 && IsActiveAt(s1, 1) && s1.end.None?
    ensures e.user == 1 && e.telescope == 1
    ensures st.sessions == [s1.(end := Some(2000 + TenMinutes))] && st.queue == [e]
  {
    st := new Store();
    var a := st.RequestAccess(Given(1), 1, 1000);
    s1 := a.value.session;
    assert st.sessions == [s1] && st.queue == [] && s1.user == 1;
    var b := st.RequestAccess(Given(1), 1, 2000);
    assert ActiveIndex([s1], 1) == Some(0);
    e := b.value.entry.value;
  }

  /** Two users ask for telescope 1; the first holds an unlimited session until
      the second queues, which time-boxes it; when the first ends it and the
      queue is promoted, the second gets a session that is UNLIMITED, because
      the queue is then empty. */
  method HandOffScenario() returns (first: Session, second: Session)
    ensures first.user == 1 && first.state == Ended
    ensures second.user == 2 && second.state == Active && second.end == None
  {
    var st, s1, e := ContestedTelescope();
    var s1' := s1.(end := Some(2000 + TenMinutes));
    var _ := st.EndSession(Some(s1.id), 3000);
    EndByIdTouchesOne([s1'], 0, 3000);
    first := st.sessions[0];
    assert EarliestIndex([e], 1) == Some(0);
    var n := st.AssignNext(Given(1), 4000);
    assert st.queue == [];
    second := n.value.value;
  }

  /** `cola/asignar` does not look at sessions: promoting while a session is
      still active leaves two active sessions on the same telescope. */
  method DoubleActiveScenario() returns (active: seq<Session>)
    ensures |active| == 2
    ensures IsActiveAt(active[0], 1) && IsActiveAt(active[1], 1)
    ensures active[0].user == 1 && active[1].user == 2
  {
    var st, s1, e := ContestedTelescope();
    assert EarliestIndex([e], 1) == Some(0);
    var n := st.AssignNext(Given(1), 3000);
    assert st.queue == [];
    var s2 := n.value.value;
    assert st.sessions == [s1.(end := Some(2000 + TenMinutes)), s2];
    active := st.sessions;
  }
}
