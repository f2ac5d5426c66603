# Telescope access and observation engine — a Dafny model

This project models the core of a shared-telescope web application. Users ask
for access to a telescope. They get it directly when no session is active.
Otherwise they wait in a first-in-first-out queue, and the current session is
cut to ten minutes. The owner of a session aims the dome at a celestial
object: the page marks the session busy, records an observation, asks the
ESP32 controller for azimuth and altitude, and photographs the object with the
ESP32 camera when it is above the horizon. Finishing an observation stamps it,
tries to upload the camera's photo, and frees the session.

The modules follow the program's files:

- `Common` — shared value helpers and text helpers. These cover whitespace
  trimming (`str.strip` / `String.prototype.trim`), ASCII lower-casing,
  substring search, and decimal rendering. It also has the "first row among
  maxima" selection that `order(...).limit(1)` performs.
- `Api` (api.js) — `apiRequest`, which turns a fetch outcome into
  `{ data, error }`. It works over a small JSON value type with JavaScript's
  truthiness, `||` and `??`.
- `Backend` (app.py) — the server. A class `Store` holds the sessions, the
  queue, the observations, the configuration rows and the id counter. Its
  handlers are methods, each proved against pure functions. Those functions
  cover the active-session choice and FIFO choice, the configuration upsert,
  the controller URL, the photo path, the take-a-photo step, and the
  observation-id resolution.
- `Dome` (domo_control.js) — the dome page. A class `DomeControl` holds the
  page state: user, session, current observation, controller and camera URLs,
  button states, download link, and the log of requests sent. The
  availability check, the aim flow and the finish flow are methods, specified
  by the functions `EvaluateOutcome`, `AimOutcome` and `FinishOutcome`.
- `Dashboard` (dashboard.js) — the access request notice, the countdown
  timers and their hand-off, the "active session" badge, and the turn poller
  (a class per stateful object).
- `ConfigPage` (config.js) — port and host normalisation, the save guard and
  the form loading.

Inputs that the program takes from the outside world are parameters of the
model:

- the replies of the server, of the ESP32 controller and of the camera;
- the current time `now`, in milliseconds;
- the day text of the photo path;
- the fresh observation id the database assigns;
- the error of the storage upload.

## Model

| member | source | states |
|---|---|---|
| Common.Trim | app.py:680-681 | the result has no leading or trailing whitespace and is no longer than the input |
| Common.TrimSlice | app.py:680-681 | the trim is a slice `s[i..j]` of the input, and every character outside it is whitespace |
| Common.TrimIdempotent | config.js:30-32 | trimming twice is trimming once |
| Common.TrimEmptyIff | config.js:90-93 | a text trims to "" exactly when every character is whitespace |
| Common.Lower | app.py:781 | lower-casing keeps the length and maps each upper-case ASCII letter to lower case, leaving every other character |
| Common.Find | app.py:803 | `find` returns the first index where the needle occurs, or -1 exactly when it occurs nowhere |
| Common.FirstMaxIndex | app.py:261-267 | the chosen row passes the filter and has the greatest key; no earlier passing row has that key; None exactly when no row passes |
| Api.Get | api.js:16 | reading a property of a non-object gives `undefined` |
| Api.Or | api.js:16 | `a \|\| b` is `a` when `a` is truthy, else `b` |
| Api.Coalesce | api.js:19 | `a ?? b` is `a` unless `a` is null or undefined, else `b` |
| Api.ApiRequest | api.js:2-24 | no error exactly for a response that did not throw, whose body is not null, with a 2xx status and `ok` not `false`; an error comes with null data and a truthy message; success data is never nullish |
| Api.MessagePrecedence | api.js:13-18 | a rejected reply reports `error`, else `message`, else `HTTP <status>` |
| Api.UnparsedBody | api.js:11-18 | a body that is not JSON reads as `{}`: 2xx gives `{}` as data, other statuses give `HTTP <status>` |
| Api.ThrownFetch | api.js:21-23 | a thrown fetch reports its message, or "Network error" when that is empty |
| Api.SuccessEnvelope | api.js:19-20 | a 2xx object reply with `ok` not false yields `data ?? user ?? body` |
| Api.ErrorRoundTrip | api.js:13-18 | the server's `{ok: false, error: m}` reaches the page as exactly `m`, whatever the status |
| Api.DataRoundTrip | api.js:19-20 | `{ok: true, data: v}` with non-null `v` yields `v` |
| Api.NullDataYieldsEnvelope | api.js:19 | as written, `{ok: true, data: null}` yields the whole (truthy) envelope |
| Api.ApiRequestFixed | api.js:19 | the corrected wrapper has the same errors and passes a present `data` key on as it is, even when null; otherwise it agrees with the original |
| Api.FixedNullData | api.js:19 | with the correction, `{ok: true, data: null}` yields null data |
| Api.HistoryUrl | api.js:192-195 | `?` and the query are appended exactly when the query is not empty |
| Backend.ActiveIndex | app.py:445-453 | points to an active session of the telescope with the latest start; None exactly when none is active |
| Backend.ActiveSession | app.py:261-269 | the active session of the telescope with the latest start; None exactly when none is active |
| Backend.EarliestIndex | app.py:383-393 | the queue entry of the telescope with the earliest enqueue time, the first among ties; None exactly when nobody waits |
| Backend.InProgressIndex | app.py:638-646 | the session's in-progress observation with the latest start; None exactly when there is none |
| Backend.ObservationIndex | app.py:715-722 | the row with the given observation id; None exactly when no row has it |
| Backend.RemoveEntry | app.py:400 | deleting by id never grows the queue, and the entries left are exactly those with another id |
| Backend.RemoveEntryAt | app.py:400 | deleting the id of entry k removes exactly entry k and keeps the order of the rest |
| Backend.RemoveAbsent | app.py:400 | deleting an id that no entry has changes nothing |
| Backend.UpdatesKeepIds | app.py:567-570 | finishing, attaching a photo and attaching a note keep observation ids unique |
| Backend.SetEndByIdTouchesOne | app.py:286-289 | with unique ids, an update of `fin_sesion` by id changes exactly that row |
| Backend.EndByIdTouchesOne | app.py:286-289 | with unique ids, ending a session by id changes exactly that row |
| Backend.SetAvailableByIdTouchesOne | app.py:601-604 | with unique ids, setting `disponible` by id changes exactly that row |
| Backend.CreateLeavesOneActive | app.py:236-249 | after a session is created, the new row is the user's only active session |
| Backend.EndActiveOfFrees | app.py:236-240 | every active session of the user is ended at `now` and marked available; other users' rows are unchanged |
| Backend.FifoOrder | app.py:383-393 | an entry that is not earlier than an entry ahead of it in the queue is never chosen |
| Backend.ValidateConfig | app.py:675-691 | the row is accepted exactly for a telescope id, a valid port, a known kind and a non-blank host; it carries the trimmed host, the port (80 when absent) and `now`; every rejection is 400, with the telescope and port messages as the code orders them |
| Backend.KeyIndex | app.py:695-701 | points to the row with the given telescope and kind; None exactly when none exists |
| Backend.Upsert | app.py:695-701 | the new row is in the table, every other row was there before, and the table grows by at most one row |
| Backend.UpsertUnique | app.py:695-701 | the upsert keeps (telescope, kind) unique |
| Backend.UpsertKeyed | app.py:695-701 | after the upsert, the new row is the only row for its key; rows for other keys survive; nothing else is added |
| Backend.ConfigView | app.py:661-663 | the map has an entry exactly for the kinds the telescope has rows for |
| Backend.ConfigViewExact | app.py:661-663 | with unique keys, each kind maps to its row's host and port |
| Backend.ControllerUrl | app.py:51-69 | the first row of the kind gives `http://host:port`; an error when no such row exists or its host is empty |
| Backend.PortText | app.py:66-69 | a zero (null) port is written as 80, any other as itself |
| Backend.ControllerUrlOfSingleRow | app.py:51-69 | a single row gives a URL exactly when its host is not empty |
| Backend.ObjectSlug | app.py:92-94 | the name part is "astro" for an empty object; otherwise each character is the object's, lower-cased, with a space turned into `_` |
| Backend.ShortId | app.py:99 | the short id is the longest prefix of the id without `-` |
| Backend.ShortIdCut | app.py:99 | a prefix without `-` followed by `-` and anything gives that prefix |
| Backend.PhotoPath | app.py:92-102 | the path is `observaciones/<day>/`, then the object's name part, then `_<day>`, then `_obs_<short id>.jpg`, each part at its exact place |
| Backend.PhotoAttempt | app.py:71-117 | a photo is saved exactly when there is a camera URL, an HTTP 200 reply of at least 5000 bytes, an observation row and a successful upload, and then under that row's `PhotoPath`; a non-200 reply gives its error message |
| Backend.RejectedPhoto | app.py:77-82 | a non-200 or too-small camera reply never yields a photo |
| Backend.FinishSurvivesPhotoFailure | app.py:567-585 | the observation is finished at `now` whatever happens to the photo; a failure leaves the photo and records the warning; success records the path; other rows are unchanged |
| Backend.ResolveObservation | app.py:539-562 | the id comes from `id_observacion`, then `idObservacion`, then `id`, then the session's newest in-progress observation (the row `InProgressIndex` picks); 400 without a session, 404 when none is in progress |
| Backend.PhotoAccess | app.py:715-732 | 404 for an unknown observation, 403 for another user's; for the owner, the stored photo path when one is present and 404 "no photo" otherwise |
| Backend.KeepMatching | app.py:802-803 | keeps exactly the rows whose object matches the query |
| Backend.KeepMatchingAppend | app.py:802-803 | the filter keeps the table's order: filtering two tables one after the other is filtering each |
| Backend.KeepMatchingSingle | app.py:802-803 | one row is kept exactly when it matches |
| Backend.FilterByText | app.py:781-803 | a blank query keeps everything; otherwise the rows kept are exactly those whose lower-cased object contains the trimmed, lower-cased query |
| Backend.FilterByTextAppend | app.py:781-803 | the text filter keeps the order of the rows the store returned |
| Backend.FilterByTextSingle | app.py:781-803 | one row is kept exactly when the query is blank or the row matches it |
| Backend.FilterIgnoresCase | app.py:781-803 | lower-casing an object does not change whether it matches |
| Backend.Store.RequestAccess | app.py:431-517 | 400 without a telescope; a direct unlimited session when none is active; nothing new when the user already waits; otherwise a new queue entry, and the active session is boxed to ten minutes when it was unlimited; the store invariant is kept |
| Backend.Store.OpenSession | app.py:455-473 | appends an active, available, unlimited session with the next id |
| Backend.Store.JoinQueue | app.py:491-496 | appends an entry with the next id and `now` |
| Backend.Store.TimeBox | app.py:500-510 | an unlimited session gets `now` plus ten minutes; a limited one is left |
| Backend.Store.EnterQueue | app.py:324-362 | 400 without a telescope, 409 for a duplicate, otherwise appends the entry |
| Backend.Store.AssignNext | app.py:365-429 | 400 for a missing or bad telescope; nothing when nobody waits; otherwise removes the earliest entry and opens a session for its user, boxed to ten minutes exactly when others still wait |
| Backend.Store.Promote | app.py:400-426 | removes entry k and appends its user's session, limited exactly when others wait |
| Backend.Store.CreateSession | app.py:220-253 | 400 without a telescope; otherwise ends the user's active sessions and appends a new unlimited one |
| Backend.Store.EndSession | app.py:271-293 | 400 without a session id; otherwise ends that row |
| Backend.Store.SetAvailable | app.py:589-606 | 400 without id or flag; otherwise sets that row's flag |
| Backend.Store.StartObservation | app.py:607-646 | 400 without session or object; otherwise appends an in-progress observation and returns exactly the row the `order by fecha_inicio desc limit 1` query picks after the insert, which is in progress, belongs to the session and starts no earlier than the new row |
| Backend.Store.FinishObservation | app.py:533-585 | the resolution's error with nothing changed, or the finished and photographed rows with the id and the photo warning |
| Backend.Store.FinishAndPhoto | app.py:567-585 | finishes the row, tries the photo, returns the warning exactly when the photo failed |
| Backend.Store.SaveCoords | app.py:807-826 | 400 without an id; otherwise sets that row's coordinates |
| Backend.Store.SaveConfig | app.py:668-705 | validation errors change nothing; a valid row is upserted |
| Backend.Store.ApplyConfig | app.py:693-705 | an error changes nothing; an accepted row is upserted |
| Backend.SelfQueueScenario | app.py:445-510 | the holder of a telescope who asks again is queued behind their own session, which is boxed to ten minutes |
| Backend.ContestedTelescope | app.py:445-510 | a second user's request for a busy telescope queues them and boxes the first session to ten minutes |
| Backend.HandOffScenario | app.py:365-429 | ending a session and assigning the next hands the telescope to the waiting user, unlimited when nobody else waits |
| Backend.DoubleActiveScenario | app.py:365-429 | assigning from the queue while a session is active leaves two active sessions on one telescope |
| Dome.CreatedId | domo_control.js:300-303 | the id is taken from `id_observacion`, `id_obs` or `id`, and exists exactly when one of them is present |
| Dome.PayloadId | domo_control.js:434-438 | the observation id sent is one of the current observation's ids, `id_observacion` first; an empty `id_observacion` sends none |
| Dome.Collapse | domo_control.js:258 | collapsing whitespace never lengthens the label, empties only the empty label, keeps whether it starts with whitespace, and keeps its words in order |
| Dome.WordsTrimStart | domo_control.js:250 | leading whitespace separates no words |
| Dome.WordsSpaceTail | domo_control.js:250 | trailing whitespace separates no words |
| Dome.WordsTrim | domo_control.js:250 | trimming keeps the words in order |
| Dome.CollapseShape | domo_control.js:258 | every whitespace run becomes one plain space, and the ends stay whitespace or not |
| Dome.NormalizeLabel | domo_control.js:250-258 | the label is empty exactly when the input is blank; it is trimmed, with single plain spaces |
| Dome.NormalizeLabelWords | domo_control.js:250-258 | the label has the words of the input, in order |
| Dome.CollapseFixed | domo_control.js:258 | a label with single plain spaces is left unchanged |
| Dome.NormalizeIdempotent | domo_control.js:250-258 | normalising twice is normalising once |
| Dome.LabelPassesServerCheck | domo_control.js:250-258 | a non-blank input always gives a non-empty label, which the server accepts |
| Dome.ControllerBase | domo_control.js:92-101 | a controller URL exists exactly when the row has a host; it is `http://host:port` |
| Dome.EndpointUrl | domo_control.js:92-101 | the URL is `http://<host>:` followed by the port, and `:80` when no port is given |
| Dome.EndpointPort | domo_control.js:92-101 | a missing port is 80, and a given one is written as it is |
| Dome.EvaluateOutcome | domo_control.js:136-213 | the check never enables both buttons and leaves user, URLs and download link as they were |
| Dome.EvaluateDecision | domo_control.js:136-213 | aim is enabled exactly for the owner of a free session on a reachable telescope, finish exactly for the owner of a busy one; never both |
| Dome.EvaluateOnlyQueries | domo_control.js:136-213 | the availability check only reads: it appends queries and changes no URL, user or link |
| Dome.EvaluateQueries | domo_control.js:154-166 | the check's requests are all queries |
| Dome.EvaluateLog | domo_control.js:136-213 | the check appends exactly its queries to the log |
| Dome.AfterCreate | domo_control.js:300-386 | after the observation exists, the page points the dome first and keeps user, session, link and URLs |
| Dome.TailCalls | domo_control.js:309-386 | the controller step always starts with the point request |
| Dome.Busy | domo_control.js:263-289 | marks the session busy, requests the observation and clears the download link |
| Dome.AimOutcome | domo_control.js:247-394 | the aim flow leaves user and URLs as they were |
| Dome.CreateOutcome | domo_control.js:291-303 | the creation step leaves user and URLs as they were |
| Dome.AimGuards | domo_control.js:248-255 | without a session, a user or a non-blank label, aiming does nothing |
| Dome.AimMarksBusyFirst | domo_control.js:277-289 | aiming first marks the session busy, then creates the observation with the normalised label |
| Dome.AimExtendsBusy | domo_control.js:263-289 | every aim run extends the busy steps and clears the download link |
| Dome.AimFailureFrees | domo_control.js:291-373 | a failed creation, an empty creation or an unreachable controller frees the session and re-enables aiming |
| Dome.AfterCreateUnreachable | domo_control.js:367-373 | an unreachable controller points, then frees the session |
| Dome.AimPhotoAboveHorizon | domo_control.js:338-386 | a photo is taken only with a camera and a numeric altitude at or above zero, last after the settle delay; finish is enabled exactly on that path; with a camera, reaching it means the log ends with the settle delay and the photo |
| Dome.AfterCreatePhoto | domo_control.js:338-386 | the same for the step after creation |
| Dome.AimAddsTail | domo_control.js:263-386 | for a created record, the flow adds the busy mark, the create and the controller step, and enables finish exactly when the photo step is reached, aim otherwise |
| Dome.CoordinateOutcome | domo_control.js:320-386 | coordinates are saved first exactly when the record has an id and both came back; without an altitude at or above zero nothing more is sent; with one but a coordinate that is not a number the session is freed last; with both numeric the settle delay follows, then the photo exactly when there is a camera |
| Dome.BelowHorizonTail | domo_control.js:332-343 | without an altitude at or above zero the controller step frees nothing, waits for nothing and takes no photo |
| Dome.AimBelowHorizonStaysBusy | domo_control.js:332-343 | with no altitude, a non-numeric one or a negative one, no settle delay or photo follows and the session is not freed, while aiming is re-enabled |
| Dome.AimSavesCoords | domo_control.js:324-330 | coordinates are saved exactly when the observation has an id and both readings are present |
| Dome.AfterCreateSaves | domo_control.js:324-330 | the same for the step after creation |
| Dome.AimIgnoresMoves | domo_control.js:359-365 | the controller's `mueve` flag does not change the outcome |
| Dome.AfterCreateIgnoresMoves | domo_control.js:359-365 | the same for the step after creation |
| Dome.Sent | domo_control.js:404-444 | finishing re-reads the session and observation, then sends the finish with the payload id |
| Dome.AfterFinishReply | domo_control.js:446-528 | handling the reply only appends to the log |
| Dome.FinishOutcome | domo_control.js:396-401 | the finish flow leaves user and URLs as they were, and does nothing without a session or a user |
| Dome.FinishOnlyOwner | domo_control.js:404-419 | without an owned session, finishing only refreshes the session |
| Dome.FinishPayload | domo_control.js:424-444 | the owner sends the three requests in order, with the payload id of the observation read back or the current one |
| Dome.FinishDownloadIffNoWarning | domo_control.js:475-528 | with an id (the reply's, else the one sent): the link, to the encoded id, exactly when there is no warning; the free request is always sent; if it succeeds aiming is re-enabled and availability re-evaluated, if it fails only finishing is re-enabled |
| Dome.FinishWithoutIdRetries | domo_control.js:477-486 | with no id at all, finishing is re-enabled, nothing is freed and the link is left as it was |
| Dome.NoObservationFreesSession | domo_control.js:453-470 | the server's "no observation in progress" reply frees the session and re-evaluates |
| Dome.NoObservationMessageFrees | domo_control.js:453-470 | the server's 404 text is recognised as "nothing to finish" |
| Dome.FinishOtherErrorRetries | domo_control.js:472 | any other finish error keeps the finish button on and does not free the session |
| Dome.HistoryCell | domo_control.js:605-626 | a negative altitude shows "out of horizon"; otherwise a stored photo shows its download link |
| Dome.EncodeUriComponent | domo_control.js:499 | `encodeURIComponent`: never shorter, only unreserved characters and `%` in the result, and as long as the input exactly when every character is unreserved |
| Dome.EncodeChar | domo_control.js:499 | an unreserved character is kept; any other becomes at least one escape, made only of unreserved characters and `%` |
| Dome.EncodeRoundTrip | domo_control.js:499 | `decodeURIComponent` gives every text back from its encoding |
| Dome.DecodeChar | domo_control.js:499 | decoding reads one encoded character back off the front of any text |
| Dome.EscapedPercents | domo_control.js:499 | the bytes written as escapes are read back exactly |
| Dome.EscapedBytes | domo_control.js:499 | reading `k` escapes consumes `3k` characters and gives `k` bytes |
| Dome.HexDigit | domo_control.js:499 | the upper-case hexadecimal digit of a value below 16 |
| Dome.HexRoundTrip | domo_control.js:499 | reading a hexadecimal digit back gives its value |
| Dome.Utf8 | domo_control.js:499 | the UTF-8 bytes of a code point: one byte (the code point itself) below 0x80, two below 0x800, three below 0x10000, four above, and a first byte that announces that length |
| Dome.Utf8RoundTrip | domo_control.js:499 | decoding the bytes gives the code point back; later bytes are continuation bytes |
| Dome.Percents | domo_control.js:499 | for each byte, `%` and its two hexadecimal digits at that byte's place |
| Dome.EncodeUnreserved | domo_control.js:499 | a text of unreserved characters is its own encoding |
| Dome.FinishLinkOneSegment | domo_control.js:499 | the finish link holds the encoded id as a single path segment without `/`, `?` or `#` |
| Dome.FinishLinkNamesId | domo_control.js:499 | the link's segment decodes to the finished id, so two ids never share a link |
| Dome.FinishLinkMatchesHistory | domo_control.js:499-620 | the finish link (line 499) and the history link (line 620) agree exactly when the id has only unreserved characters |
| Dome.HistoryAgreesWithAim | domo_control.js:605-626 | an observation photographed by the aim flow is never shown as out of horizon |
| Dome.HistoryParams | domo_control.js:559-568 | only non-empty filters are sent, the query trimmed and first |
| Dome.Param | domo_control.js:559-568 | a filter is sent exactly when its value is not empty |
| Dome.HistoryParamsIff | domo_control.js:559-568 | a pair is sent exactly when it is one of the four filters with its value (the text trimmed) and that value is not empty |
| Dome.DomeControl.constructor | domo_control.js:92-109 | the page starts with the controller URL and, only when that exists, the camera URL; both buttons off |
| Dome.DomeControl.Evaluate | domo_control.js:136-213 | the new page state is the availability check's outcome |
| Dome.DomeControl.Aim | domo_control.js:247-394 | the new page state is the aim flow's outcome |
| Dome.DomeControl.MarkBusy | domo_control.js:263-289 | the new page state is the busy step's |
| Dome.DomeControl.HandleCreate | domo_control.js:281-303 | the new page state is the creation step's outcome |
| Dome.DomeControl.PointAndShoot | domo_control.js:309-386 | the new page state is the controller step's outcome |
| Dome.DomeControl.ControllerDown | domo_control.js:367-373 | the new page state is that of an unreachable controller |
| Dome.DomeControl.ControllerUp | domo_control.js:309-386 | the new page state is that of a controller reply |
| Dome.DomeControl.ReadCoordinates | domo_control.js:320-386 | appends the coordinate steps; enables finish exactly when the readings allow a photo, otherwise aim; nothing else changes |
| Dome.DomeControl.Finish | domo_control.js:396-529 | the new page state is the finish flow's outcome |
| Dome.DomeControl.HandleFinishReply | domo_control.js:446-528 | the new page state is the reply step's outcome |
| Dashboard.Countdown | dashboard.js:134-157 | "time up" exactly when the end has passed; otherwise minutes and seconds under 60 that floor the time left |
| Dashboard.CountdownSeconds | dashboard.js:153-155 | the shown minutes and seconds are the whole seconds left |
| Dashboard.CountdownMonotone | dashboard.js:138-155 | the countdown never goes up, and "time up" stays |
| Dashboard.FreshTimeBox | dashboard.js:153-155 | a fresh ten-minute box shows 10m 0s |
| Dashboard.AccessNotice | dashboard.js:102-131 | the notice is an error exactly when the request failed, "granted" exactly for direct access, "waiting" exactly for the queue |
| Dashboard.AccessNoticeOfServer | dashboard.js:111-129 | every server reply to an access request gives the matching notice, and the "processed" fallback never happens |
| Dashboard.EnvelopeNotice | dashboard.js:117-127 | the access envelope gives "granted" for direct access and "waiting" otherwise |
| Dashboard.BadgeAlwaysYes | dashboard.js:57 | as written, the badge shows "SÍ" whatever sessions exist |
| Dashboard.BadgeFixedIff | dashboard.js:57 | with the corrected wrapper, the badge shows "SÍ" exactly when a session is active |
| Dashboard.ModalText | dashboard.js:216-224 | the modal says "10 minutos" exactly when the session has an end, and "tiempo ilimitado" exactly when it has none |
| Dashboard.PromotedTurnText | dashboard.js:224 | a promoted user reads "10 minutos" exactly when others still wait |
| Dashboard.Actives | dashboard.js:188-189 | keeps exactly the active sessions |
| Dashboard.ActivesAppend | dashboard.js:188-189 | the filter keeps the order of the sessions: filtering two lists one after the other is filtering each |
| Dashboard.ActivesSingle | dashboard.js:188-189 | one session is kept exactly when it is active |
| Dashboard.Latest | dashboard.js:188-192 | the active session with the latest start; None exactly when none is active |
| Dashboard.PollStep | dashboard.js:184-210 | a round adds at most one modal text to those shown, forgets no session's end, and changes something exactly when it shows the modal |
| Dashboard.PollShowsIff | dashboard.js:170-214 | the modal is shown exactly when the latest active session is new or its end changed, and the end is remembered |
| Dashboard.PollIdempotent | dashboard.js:194-210 | a second round with the same sessions shows nothing new |
| Dashboard.PollSeesTimeBox | dashboard.js:194-210 | a session that gets a time box is announced again with "10 minutos" |
| Dashboard.TimersFor | dashboard.js:95-97 | timers are started only for active sessions with an end |
| Dashboard.TimersForComplete | dashboard.js:95-97 | every active session with an end gets a timer |
| Dashboard.Page.StartTimers | dashboard.js:95-97 | exactly the timers of the rendered sessions are added |
| Dashboard.Page.Tick | dashboard.js:134-157 | a tick shows the countdown; at time up it stops the timer and ends the session, assigns the next and reloads |
| Dashboard.Page.Close | dashboard.js:160-165 | closing ends the session, assigns the next and reloads |
| Dashboard.TurnPoll.Round | dashboard.js:170-214 | the poller's new state is the poll step's |
| ConfigPage.ToPort | config.js:24-28 | the fallback unless the number is finite and in (0, 65535], else its integer part |
| ConfigPage.ToPortBounds | config.js:24-28 | the port is in 0..65535, and 0 only for a number strictly between 0 and 1 |
| ConfigPage.ToPortKeepsPorts | config.js:24-28 | a whole port in 1..65535 is kept |
| ConfigPage.TextNumber | config.js:25 | a blank field reads as 0; a digit text reads as a non-negative finite number |
| ConfigPage.PortFieldRoundTrip | config.js:87-88 | a port typed as its decimal text is saved as that port; a blank field is saved as 80 |
| ConfigPage.NormHost | config.js:30-32 | the host is trimmed, and empty exactly when the field is absent or blank |
| ConfigPage.NormHostSlice | config.js:30-32 | the host is the field's text with only whitespace cut from its ends |
| ConfigPage.NormHostIdempotent | config.js:30-32 | normalising a normalised host changes nothing |
| ConfigPage.KindOf | config.js:97-102 | each board is saved under a kind the server knows |
| ConfigPage.SaveRequest | config.js:83-102 | a request goes out exactly with a user and a non-blank host; it names telescope 1, the board's kind, the normalised host and a port in 0..65535 |
| ConfigPage.SaveMessage | config.js:83-109 | the "saved" text shows exactly when a user is signed in, the host is not blank and the request reports no error; the error text shows exactly when it reports one |
| ConfigPage.SaveGuard | config.js:83-109 | a request goes out exactly with a user and a non-blank host, for telescope 1, with the board's kind, the host and a port in range; a failure shows the server's error |
| ConfigPage.ClientSaveAccepted | config.js:97-102 | every request the page sends passes the server's validation, and the stored port is in 1..65535 |
| ConfigPage.CallValidates | app.py:675-691 | a trimmed host and kind with a port in 0..65535 are stored as sent, with port 0 stored as 80 |
| ConfigPage.SaveConfirmed | config.js:104 | the server's `{ok: true}` shows the "saved" message |
| ConfigPage.LoadOutcome | config.js:50-78 | without a user nothing changes; an error is shown with its message |
| ConfigPage.LoadShowsStored | config.js:62-71 | loading shows each configured board's host and port (80 for a null port) and leaves the others |

## Left out

- Authentication is not modelled. This covers `_require_login`, the 401 replies, register and login, `asegurarSesion`'s redirect, and the `/api/me` identity lookup. A signed-in user is a parameter.
- The database, the HTTP transport, Supabase storage and signed URLs are not modelled. Queries become functions over sequences of rows, and the upload is an optional error.
- Timers and `setInterval` are not modelled, and neither are the settle delay (represented by a `Settle` call in the log), `location.reload` (a `Reload` request), `alert` or the modal's OK button.
- Concurrency, and races between pages and requests, are not modelled. Each handler runs atomically with one `now`.
- Backend.FilterByText: the database filters `estado`, `desde` and `hasta`, the ordering and `limit(200)` are not modelled. Only the text filter is.
- The `/observaciones/mias` handler is left out. It is a second listing of the user's own observations.
- `descripcion` and `fecha_busqueda` pass through the observation start unmodelled.
- Whitespace is the ASCII set that Python's `strip` and JavaScript's `trim` share. Lower-casing is ASCII only.
- An id field holding a numeric text such as `"0"` is not modelled: `IdField` stands for a JSON number, so `Given(0)` is the falsy number 0 that the handlers reject as missing.
- Ids of sessions and entries are naturals from one counter; observation ids are texts supplied by the caller. Timestamps are millisecond integers, so ISO text comparison is not modelled.
- When several rows tie for "latest", the first row is chosen. The database's order among ties is unspecified.
- Dome.NoObservationFreesSession: the nested `evaluarDisponibilidad` run after a freed session is recorded as a `Reevaluate` marker and not expanded.
- The TypeError text for a property read on a null body follows one browser engine's wording.
- ConfigPage.TextNumber: `Number(text)` is modelled only for blank texts and decimal digit runs. Other texts give None, so signs, fractions, exponents and hexadecimal are not modelled.
- The rendering of the page is not modelled: the DOM, texts and `toFixed` formatting, the queue count, `nombreUsuario` and the list HTML. Only the decisions behind them are.
- `tomarUnaFoto`'s own fetch errors are not modelled. A camera request is a logged call.
- The api.js wrappers other than `apiRequest` and `listarMisObservaciones` are left out. They only pass a path and a body.
- Dome.EncodeUriComponent: a text is a sequence of Unicode scalar values, so the lone surrogates on which `encodeURIComponent` throws `URIError` have no counterpart.

The model follows the code where its behaviour differs from what the rest of
the application evidently expects (one session per telescope, one place in the
queue per user, finishing only one's own observation):

- A user promoted from the queue when nobody else waits gets an unlimited session.
- `cola/asignar` does not check for an active session, so two active sessions on one telescope are possible (Backend.DoubleActiveScenario).
- `sesion/finalizar` ends the row again on every call.
- `sesion/disponible` has no owner check.
- `observacion/finalizar` has no owner check either: any signed-in user can finish any observation, by id or through a session id (Backend.Store.FinishObservation).
- A user who holds the active session and asks for access again is queued behind themselves, and this time-boxes their own session (Backend.SelfQueueScenario).
- Access requests do not look at the telescope's admin state.
- The dome page treats an absent telescope state as available.
- Without an altitude at or above the horizon (none, not a number, or negative), the session stays busy.
- The dome page keeps an explicit port 0, while the server writes a null or zero port as 80.
- The finish flow encodes the id in the photo link, but the history table splices in the raw id. The two links agree exactly when the id has only unreserved characters, as a UUID does (Dome.FinishLinkMatchesHistory).

## Findings

| source | as written | input that shows it | evidently intended | confidence | as-written member | corrected member |
|---|---|---|---|---|---|---|
| api.js:19 with dashboard.js:57 | `out.data ?? out.user ?? out` skips a null `data`, so `{ok: true, data: null}` yields the whole envelope, which is truthy; the badge then always reads "SÍ" | `GET /api/sesion/activa/1` for a telescope with no active session (the server replies `{ok: true, data: null}`) | a null `data` reaches the page as null, and the badge reads "NO" | not executed | Dashboard.BadgeAlwaysYes | Dashboard.BadgeFixedIff |
