/** The dashboard page (dashboard.js): the per-session countdown and what it
    does when the time is up, the manual close, the reaction to an access
    request, the poll that shows the "your turn" modal once per session and
    end time, and the "active session" badge of each telescope card. */
module Dashboard {
  import opened Common
  import opened Api
  import opened Backend

  // ---------------------------------------------------------------------------
  // Countdown

  /** What a countdown paragraph shows at one tick. */
  datatype Display = TimeUp | Remaining(minutes: nat, seconds: nat)

  /** One tick of `iniciarTimer` at time `now` (milliseconds): up when the end
      is reached, otherwise whole minutes and the whole seconds left over. */
  function Countdown(end: Time, now: Time): (d: Display)
    ensures d.TimeUp? <==> end - now <= 0
    ensures d.Remaining? ==> d.seconds < 60
    ensures d.Remaining? ==>
      d.minutes * 60000 + d.seconds * 1000 <= end - now < d.minutes * 60000 + d.seconds * 1000 + 1000
  {
    var diff := end - now;
    if diff <= 0 then TimeUp
    else
      var m := diff / 60000;
      var r := diff % 60000;
      assert diff == 60000 * m + r && 0 <= r < 60000;
      var s := r / 1000;
      assert r == 1000 * s + r % 1000 && 0 <= r % 1000 < 1000;
      Remaining(m, s)
  }

  /** The number of whole seconds a display stands for; 0 once the time is up. */
  function Seconds(d: Display): nat
  {
    if d.TimeUp? then 0 else d.minutes * 60 + d.seconds
  }

  /** The countdown shows exactly the whole seconds left. */
  lemma CountdownSeconds(end: Time, now: Time)
    requires end - now > 0
    ensures Seconds(Countdown(end, now)) == (end - now) / 1000
  {
    var d := Countdown(end, now);
    var q := d.minutes * 60 + d.seconds;
    var rest := (end - now) - 1000 * q;
    assert 1000 * q == d.minutes * 60000 + d.seconds * 1000;
    assert 0 <= rest < 1000;
  }

  /** Time only runs down: a later tick never shows more time, and once the
      time is up it stays up. */
  lemma CountdownMonotone(end: Time, now1: Time, now2: Time)
    requires now1 <= now2
    ensures Seconds(Countdown(end, now2)) <= Seconds(Countdown(end, now1))
    ensures Countdown(end, now1).TimeUp? ==> Countdown(end, now2).TimeUp?
  {
    if end - now2 > 0 {
      CountdownSeconds(end, now1);
      CountdownSeconds(end, now2);
    }
  }

  /** A session given ten minutes at `now` shows "10m 0s" at that moment. */
  lemma FreshTimeBox(now: Time)
    ensures Countdown(now + TenMinutes, now) == Remaining(10, 0)
  {
  }

  /** The paragraph's text. */
  function DisplayText(d: Display): string
  {
    match d
    case TimeUp => "Tiempo terminado"
    case Remaining(m, s) => "Tiempo restante: " + NatToString(m) + "m " + NatToString(s) + "s"
  }

  // ---------------------------------------------------------------------------
  // Access request and the session badge

  /** The message the page announces after "Solicitar acceso". */
  datatype Notice = AccessFailed(message: JsValue) | Granted | Waiting | Processed(message: JsValue)

  /** `solicitarAcceso` after the request: the error's message, else a
      dispatch on `modo`, else the reply's `msg` or a stock text. */
  function AccessNotice(f: Fetch): (n: Notice)
    ensures n.AccessFailed? <==> ApiRequest(f).error.Some?
    ensures n.AccessFailed? ==> n.message == ApiRequest(f).error.value
    ensures n == Granted <==> ApiRequest(f).error.None? && Get(ApiRequest(f).data, "modo") == Str("ACCESO_DIRECTO")
    ensures n == Waiting <==> ApiRequest(f).error.None? && Get(ApiRequest(f).data, "modo") == Str("EN_COLA")
  {
    var reply := ApiRequest(f);
    if reply.error.Some? then AccessFailed(reply.error.value)
    else
      var modo := Get(reply.data, "modo");
      if modo == Str("ACCESO_DIRECTO") then Granted
      else if modo == Str("EN_COLA") then Waiting
      else Processed(Or(Get(reply.data, "msg"), Str("Solicitud procesada")))
  }

  /** The page reloads after every notice except a failure. */
  predicate Reloads(n: Notice)
  {
    !n.AccessFailed?
  }

  /** The envelope `POST /api/acceso/solicitar` sends for each of its replies
      (the session and queue rows it also carries are not rendered). */
  function AccessEnvelope(a: AccessReply): JsValue
  {
    match a
    case Direct(_) =>
      Obj(map["ok" := Bool(true), "modo" := Str("ACCESO_DIRECTO"), "msg" := Str("Telescopio libre. Acceso otorgado.")])
    case Queued(None) =>
      Obj(map["ok" := Bool(true), "modo" := Str("EN_COLA"), "msg" := Str("Ya estás en la cola FIFO.")])
    case Queued(Some(_)) =>
      Obj(map["ok" := Bool(true), "modo" := Str("EN_COLA"), "msg" := Str("Telescopio ocupado. Entraste a la cola FIFO.")])
  }

  /** The server's reply decides the notice: direct access is announced as
      granted, a queue entry (new or already there) as queued, and an error
      with its own text; the fallback branch is never taken. */
  lemma AccessNoticeOfServer(r: Result<AccessReply>)
    requires r.Err? ==> r.message != ""
    ensures var body := if r.Ok? then AccessEnvelope(r.value) else ErrorBody(r.message);
      var status := if r.Ok? then 200 else r.status;
      var n := AccessNotice(Responded(status, Json(body)));
      (r.Ok? && r.value.Direct? ==> n == Granted) &&
      (r.Ok? && r.value.Queued? ==> n == Waiting) &&
      (r.Err? ==> n == AccessFailed(Str(r.message))) &&
      !n.Processed?
  {
    if r.Ok? {
      EnvelopeNotice(r.value);
    } else {
      ErrorRoundTrip(r.status, r.message);
    }
  }

  /** Each of the server's access envelopes is announced by its mode. */
  lemma EnvelopeNotice(a: AccessReply)
    ensures AccessNotice(Responded(200, Json(AccessEnvelope(a)))) == if a.Direct? then Granted else Waiting
  {
    var body := AccessEnvelope(a);
    SuccessEnvelope(200, body.fields);
    assert "data" !in body.fields && "user" !in body.fields;
    assert body.fields["modo"] == Str(if a.Direct? then "ACCESO_DIRECTO" else "EN_COLA");
  }

  /** The JSON of a session row (the fields the page does not read are not
      rendered). */
  function SessionJson(s: Session): JsValue
  {
    Obj(map["id_sesion" := Num(s.id as real), "id_telescopio" := Num(s.telescope as real)])
  }

  /** The envelope `GET /api/sesion/activa/<id>` sends. */
  function ActiveBody(s: Option<Session>): JsValue
  {
    DataBody(if s.Some? then SessionJson(s.value) else Null)
  }

  /** The badge of a telescope card: `sesionActiva ? "SÍ" : "NO"`, with
      `sesionActiva` decoded by the request wrapper as written. */
  function Badge(f: Fetch): string
  {
    if Truthy(ApiRequest(f).data) then "SÍ" else "NO"
  }

  /** As written the badge says "SÍ" for every telescope the server answers
      for, with or without an active session: a null `data` decodes to the
      whole envelope. */
  lemma BadgeAlwaysYes(ss: seq<Session>, telescope: int)
    ensures Badge(Responded(200, Json(ActiveBody(ActiveSession(ss, telescope))))) == "SÍ"
  {
    var s := ActiveSession(ss, telescope);
    if s.None? {
      NullDataYieldsEnvelope(200);
    } else {
      DataRoundTrip(200, SessionJson(s.value));
    }
  }

  /** The badge decoded by the corrected wrapper. */
  function BadgeFixed(f: Fetch): string
  {
    if Truthy(ApiRequestFixed(f).data) then "SÍ" else "NO"
  }

  /** With the corrected wrapper the badge says "SÍ" exactly when the
      telescope has an active session. */
  lemma BadgeFixedIff(ss: seq<Session>, telescope: int)
    ensures BadgeFixed(Responded(200, Json(ActiveBody(ActiveSession(ss, telescope))))) == "SÍ" <==>
      ActiveSession(ss, telescope).Some?
  {
    var s := ActiveSession(ss, telescope);
    if s.None? {
      FixedNullData(200);
    } else {
      DataRoundTrip(200, SessionJson(s.value));
    }
  }

  // ---------------------------------------------------------------------------
  // The turn modal

  /** `mostrarModalTurno`: a set end time means a ten-minute turn. */
  function ModalText(end: Option<Time>): (t: string)
    ensures t == "10 minutos" <==> end.Some?
    ensures t == "tiempo ilimitado" <==> end.None?
  {
    if end.Some? then "10 minutos" else "tiempo ilimitado"
  }

  /** A user promoted from the queue is told "10 minutos" exactly when others
      were still waiting when the turn was assigned. */
  lemma PromotedTurnText(q: seq<QueueEntry>, telescope: int, user: UserId, id: nat, now: Time)
    ensures var s := Session(id, telescope, user, now,
                             if HasWaiting(q, telescope) then Some(now + TenMinutes) else None, Active, true);
      ModalText(s.end) == "10 minutos" <==> HasWaiting(q, telescope)
  {
  }

  /** `sesiones.filter(s => s.estado === "activa")`. */
  function Actives(rows: seq<Session>): (r: seq<Session>)
    ensures forall s :: s in r <==> s in rows && s.state.Active?
    ensures |r| <= |rows|
  {
    if rows == [] then []
    else Actives(rows[..|rows| - 1]) + (if rows[|rows| - 1].state.Active? then [rows[|rows| - 1]] else [])
  }

  /** The filter keeps the order of the rows: filtering a concatenation is
      concatenating the filtered parts. */
  lemma {:induction false} ActivesAppend(a: seq<Session>, b: seq<Session>)
    ensures Actives(a + b) == Actives(a) + Actives(b)
    decreases |b|
  {
    if b == [] {
      assert a + b == a;
      assert Actives(a) + Actives(b) == Actives(a) + [];
    } else {
      var ab := a + b;
      var b' := b[..|b| - 1];
      var last := b[|b| - 1];
      var keep := if last.state.Active? then [last] else [];
      assert ab[..|ab| - 1] == a + b';
      assert ab[|ab| - 1] == last;
      assert Actives(ab) == Actives(a + b') + keep;
      assert Actives(b) == Actives(b') + keep;
      ActivesAppend(a, b');
      assert Actives(ab) == Actives(a) + Actives(b') + keep;
    }
  }

  /** One row is kept exactly when it is active. */
  lemma ActivesSingle(s: Session)
    ensures Actives([s]) == if s.state.Active? then [s] else []
  {
    assert [s][..0] == [];
  }

  /** The head of the active sessions after the stable sort by start time,
      latest first: the first of those that started last. */
  function Latest(rows: seq<Session>): (r: Option<Session>)
    ensures r.None? <==> forall s :: s in rows ==> !s.state.Active?
    ensures r.Some? ==> r.value in rows && r.value.state.Active?
    ensures r.Some? ==> forall s :: s in rows && s.state.Active? ==> s.start <= r.value.start
  {
    var activas := Actives(rows);
    var k := FirstMaxIndex(activas, (s: Session) => true, (s: Session) => s.start);
    if k.None? then
      assert activas == [];
      None
    else
      assert forall s :: s in activas ==> s.start <= activas[k.value].start;
      Some(activas[k.value])
  }

  /** What the poll keeps: the end time last seen per session, and every text
      the modal was opened with. */
  datatype PollState = PollState(lastFin: map<nat, Option<Time>>, shown: seq<string>)

  /** One round of `activarPollingTurno`; `rows` is None when the reply is not
      a list. */
  function PollStep(st: PollState, rows: Option<seq<Session>>): (r: PollState)
    ensures |st.shown| <= |r.shown| <= |st.shown| + 1 && r.shown[..|st.shown|] == st.shown
    ensures st.lastFin.Keys <= r.lastFin.Keys
    ensures |r.shown| == |st.shown| + 1 <==> r != st
  {
    if rows.None? then st
    else
      match Latest(rows.value)
      case None => st
      case Some(a) =>
        if a.id !in st.lastFin || st.lastFin[a.id] != a.end then
          PollState(st.lastFin[a.id := a.end], st.shown + [ModalText(a.end)])
        else st
  }

  /** The modal opens, and the map records the end time, exactly when the
      latest active session is new or its end time changed; otherwise
      nothing changes. */
  lemma PollShowsIff(st: PollState, rows: Option<seq<Session>>)
    ensures var r := PollStep(st, rows);
      var a := if rows.Some? then Latest(rows.value) else None;
      var changed := a.Some? && (a.value.id !in st.lastFin || st.lastFin[a.value.id] != a.value.end);
      (changed ==> r.lastFin == st.lastFin[a.value.id := a.value.end] && r.shown == st.shown + [ModalText(a.value.end)]) &&
      (!changed ==> r == st)
  {
  }

  /** The same reply twice opens the modal at most once. */
  lemma PollIdempotent(st: PollState, rows: Option<seq<Session>>)
    ensures PollStep(PollStep(st, rows), rows) == PollStep(st, rows)
  {
  }

  /** An unlimited session that becomes time-boxed (someone queued behind its
      owner) reopens the modal, now with "10 minutos". */
  lemma PollSeesTimeBox(st: PollState, a: Session, t: Time)
    requires a.state.Active? && a.end.None?
    ensures var once := PollStep(st, Some([a]));
      var twice := PollStep(once, Some([a.(end := Some(t))]));
      |twice.shown| == |once.shown| + 1 && twice.shown[|twice.shown| - 1] == "10 minutos"
  {
    assert Latest([a]) == Some(a);
    var b := a.(end := Some(t));
    assert b in [b];
    assert Latest([b]) == Some(b);
  }

  // ---------------------------------------------------------------------------
  // The page

  /** `fin_sesion && estado === "activa"`: the sessions that get a countdown. */
  predicate Timed(s: Session)
  {
    s.end.Some? && s.state.Active?
  }

  /** A running `setInterval` countdown. */
  datatype Timer = Timer(session: nat, end: Time, telescope: int)

  /** The timers the session list starts, in list order. */
  function TimersFor(rows: seq<Session>): (r: seq<Timer>)
    ensures |r| <= |rows|
    ensures forall t :: t in r ==> exists s :: s in rows && Timed(s) && t == Timer(s.id, s.end.value, s.telescope)
  {
    if rows == [] then []
    else
      var s := rows[|rows| - 1];
      TimersFor(rows[..|rows| - 1]) + (if Timed(s) then [Timer(s.id, s.end.value, s.telescope)] else [])
  }

  /** Every timed session gets its countdown. */
  lemma {:induction false} TimersForComplete(rows: seq<Session>, s: Session)
    requires s in rows && Timed(s)
    ensures Timer(s.id, s.end.value, s.telescope) in TimersFor(rows)
  {
    var last := rows[|rows| - 1];
    if s != last {
      assert s in rows[..|rows| - 1];
      TimersForComplete(rows[..|rows| - 1], s);
    }
  }

  /** A request the page sends to the server, or its reload. */
  datatype Request = EndSessionCall(session: nat) | AssignNextCall(telescope: int) | Reload

  /** The requests of an expired or closed session: end it, then promote the
      next in the queue, then reload. */
  function HandOff(session: nat, telescope: int): seq<Request>
  {
    [EndSessionCall(session), AssignNextCall(telescope), Reload]
  }

  class Page {
    /** The requests sent so far, in order. */
    var requests: seq<Request>
    /** The countdowns still running. */
    var timers: seq<Timer>
    /** The text of each `timer-<id>` paragraph. */
    var texts: map<nat, string>

    constructor ()
      ensures requests == [] && timers == [] && texts == map[]
    {
      requests, timers, texts := [], [], map[];
    }

    /** The session list of `iniciarDashboard`: one countdown per timed row. */
    method StartTimers(rows: seq<Session>)
      modifies this`timers
      ensures timers == old(timers) + TimersFor(rows)
    {
      var i := 0;
      while i < |rows|
        invariant 0 <= i <= |rows|
        invariant timers == old(timers) + TimersFor(rows[..i])
      {
        assert rows[..i + 1][..i] == rows[..i];
        var s := rows[i];
        if s.end.Some? && s.state.Active? {
          timers := timers + [Timer(s.id, s.end.value, s.telescope)];
        }
        i := i + 1;
      }
      assert rows[..i] == rows;
    }

    /** One tick of the `k`-th countdown: it shows the time left, or, once the
        end is reached, says so, stops and hands the telescope over. */
    method Tick(k: nat, now: Time)
      requires k < |timers|
      modifies this`timers, this`texts, this`requests
      ensures var t := old(timers[k]);
        texts == old(texts)[t.session := DisplayText(Countdown(t.end, now))] &&
        (Countdown(t.end, now).TimeUp? ==>
          timers == old(timers[..k] + timers[k + 1..]) && requests == old(requests) + HandOff(t.session, t.telescope)) &&
        (Countdown(t.end, now).Remaining? ==> timers == old(timers) && requests == old(requests))
    {
      var t := timers[k];
      var diff := t.end - now;
      if diff <= 0 {
        texts := texts[t.session := "Tiempo terminado"];
        timers := timers[..k] + timers[k + 1..];
        requests := requests + [EndSessionCall(t.session)];
        requests := requests + [AssignNextCall(t.telescope)];
        requests := requests + [Reload];
        return;
      }
      var min := diff / 60000;
      var sec := (diff % 60000) / 1000;
      texts := texts[t.session := "Tiempo restante: " + NatToString(min) + "m " + NatToString(sec) + "s"];
    }

    /** "Finalizar sesión": end the session, then promote the next in the queue. */
    method Close(session: nat, telescope: int)
      modifies this`requests
      ensures requests == old(requests) + HandOff(session, telescope)
    {
      requests := requests + [EndSessionCall(session)];
      requests := requests + [AssignNextCall(telescope)];
      requests := requests + [Reload];
    }
  }

  /** The turn poll as the page runs it, one round per call. */
  class TurnPoll {
    var lastFin: map<nat, Option<Time>>
    var shown: seq<string>

    constructor ()
      ensures lastFin == map[] && shown == []
    {
      lastFin, shown := map[], [];
    }

    function State(): PollState
      reads this
    {
      PollState(lastFin, shown)
    }

    method Round(rows: Option<seq<Session>>)
      modifies this
      ensures State() == PollStep(old(State()), rows)
    {
      if rows.None? {
        return;
      }
      var a := Latest(rows.value);
      if a.None? {
        return;
      }
      var id := a.value.id;
      var finActual := a.value.end;
      if id !in lastFin {
        lastFin := lastFin[id := finActual];
        shown := shown + [ModalText(finActual)];
        return;
      }
      if lastFin[id] != finActual {
        lastFin := lastFin[id := finActual];
        shown := shown + [ModalText(finActual)];
      }
    }
  }
}
