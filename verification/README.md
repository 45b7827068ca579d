# Yoltec clinic: appointments and who may touch them

This project models the appointment ("cita") lifecycle of the Yoltec school
clinic and the authorization rules around it. It covers the Laravel backend and
the two Angular clients.

**Backend.**
- A student books an appointment. It is created as `programada` and gets a
  unique key of the form `CITA-YYYYMMDD-XXXXXX`.
- The student may cancel it unless it has been attended.
- A doctor marks it `atendida`, which binds the doctor and stamps the time.
- A doctor writes at most one prescription ("receta") per appointment.
- A doctor writes any number of visit logs ("bitácoras") per appointment.
- Students read only their own records. Any other user reads all of them.

**Clients.**
- The appointments screen decides which buttons to show, validates the
  booking form and patches its list from the server's answers.
- Two session stores keep the token and the user in memory and in
  `localStorage`.
- A route guard lets a navigation through or redirects it.

How the model is built:

- The database is one object, `Database.Db`. It holds one map per table (id
  to record) plus each table's auto-increment counter.
  - `Db.Valid()` is the integrity the schema and the controllers together
    keep:
    - appointment keys are unique (a unique index);
    - prescriptions and logs point at existing appointments (foreign keys);
    - prescriptions and logs carry their appointment's student (copied by
      the controllers);
    - there is at most one prescription per appointment (checked by the
      prescription controller; the schema has no such index);
    - every stored value of a `varchar(255)` column fits it: an
      appointment's reason and a log's weight, height, temperature and
      blood pressure (the database refuses longer text).
  - Every controller action that writes takes the `Db`, changes only the
    table it writes (named field by field in `modifies`), and keeps
    `Valid()`. The read-only actions `Index` and `Show` take the table's map.
- Cancelling and attending are two pure step functions,
  `CitaController.CancelStep` and `CitaController.AttendStep`.
  - Each gives the response and the new `citas` table.
  - The methods `Cancelar` and `Atender` perform those steps on the
    database.
  - The lemmas about the lifecycle are stated over the two steps.
- A listing sorted by the database is modelled as a set of visible ids ordered
  by `Query.OrderByDesc`. The ensures of each `Index` state:
  - exactly which ids appear;
  - that each appears once;
  - that they are sorted by the SQL `ORDER BY … DESC` key.
- The key generator `CitaModel.GenerarClaveCita` is the `do … while` loop of
  `Cita::generarClaveCita`. It takes two inputs that are parameters in the
  model:
  - the clock's date;
  - the sequence of md5 digests the loop would draw.
- Client handlers that wait for the network are split in two:
  - the synchronous part, e.g. `AgendarCita`, which returns what it sends;
  - the callback part, e.g. `AgendarCitaAnswered`, which applies the
    server's answer.

## Model

| member | source | states |
|---|---|---|
| Users.EsAlumno | backend/app/Models/User.php:69-72 | the strict comparison `tipo === 'alumno'`; its meaning is stated by `RoleClassification` |
| Users.EsDoctor | backend/app/Models/User.php:74-77 | the strict comparison `tipo === 'doctor'`; its meaning is stated by `RoleClassification` |
| Users.RoleClassification | backend/app/Models/User.php:69-77 | `esAlumno` holds exactly for `tipo == "alumno"`, `esDoctor` exactly for `tipo == "doctor"`, and no user is both |
| Users.OtherTipoIsNeither | backend/app/Models/User.php:69-77 | a user of any other `tipo` is neither student nor doctor, so falls into the controllers' non-student branches |
| CitaModel.EstatusNamesDistinct | backend/database/migrations/2025_11_12_200331_create_citas_table.php:19 | the three status values of the enum column are distinct strings, so the status read back determines the status |
| CitaModel.TimeRankOrdersTimes | backend/app/Http/Controllers/CitaController.php:22 | for `H:i` times, the numeric rank used for `orderBy('hora_cita')` orders times by hour, then minute, and is injective |
| CitaModel.DateRankOrdersDates | backend/app/Http/Controllers/CitaController.php:21-22 | for calendar dates, the numeric rank used for `orderBy('fecha_cita')` orders dates lexicographically by year, month, day and is injective |
| CitaModel.Digits | backend/app/Models/Cita.php:55 | zero-padded decimal rendering as in `date('Ymd')`: exactly `width` characters, all decimal digits |
| CitaModel.DigitsRoundTrip | backend/app/Models/Cita.php:55 | reading back a zero-padded rendering gives the number, when it fits the width |
| CitaModel.Ymd | backend/app/Models/Cita.php:55 | the date part of a key is 8 decimal digits |
| CitaModel.Suffix | backend/app/Models/Cita.php:55 | the suffix `strtoupper(substr(md5, 0, 6))` is exactly 6 upper-case hex characters `0-9A-F`, and lower-casing the i-th gives back the digest's i-th character |
| CitaModel.Upper | backend/app/Models/Cita.php:55 | `strtoupper` on one character: a lower-case hex digit becomes an upper-case hex digit that `strtolower` turns back into it, and upper-case hex digits are kept |
| CitaModel.SameDayClavesCollideIff | backend/app/Models/Cita.php:55-56 | two keys of the same day collide exactly when their digests agree on the first six characters |
| CitaModel.ClaveFor | backend/app/Models/Cita.php:55 | the key built from the date and one digest, `CITA-` + `Ymd` + `-` + suffix; its shape and read-back are stated by `ClaveRoundTrip` |
| CitaModel.ClaveRoundTrip | backend/app/Models/Cita.php:55 | every generated key has the shape `CITA-` + 8 digits + `-` + 6 uppercase hex, its date part reads back as the day it was made, and its last 6 characters are the suffix |
| CitaModel.ClavesOfDifferentDaysDiffer | backend/app/Models/Cita.php:55 | keys generated on different days never collide, whatever the digests |
| CitaModel.GenerarClaveCita | backend/app/Models/Cita.php:54-58 | the loop reads the table only; each rejected candidate was taken; the key returned is the first candidate not taken, so it differs from every stored `clave_cita`, is well formed and carries today's date; a key is found exactly when some drawn candidate is free; when every drawn candidate is taken there is no key |
| Query.InsertDesc | backend/app/Http/Controllers/CitaController.php:21-22 | inserting an id into a list sorted descending by key keeps it sorted and adds exactly that id |
| Query.OrderByDesc | backend/app/Http/Controllers/CitaController.php:25-28 | the result lists every id of the set exactly once (same multiset), nothing else, sorted descending by key |
| Database.BookingsKeptPreservesIntegrity | backend/database/migrations/2025_11_12_200331_create_citas_table.php:13-14 | a change that keeps every appointment's id, key and student keeps keys unique and every prescription and log linked |
| Database.InsertFreshCitaKeepsIntegrity | backend/database/migrations/2025_11_12_200331_create_citas_table.php:13 | inserting an appointment under a new id with a key no row holds keeps keys unique and every prescription and log linked |
| Database.Db.constructor | backend/database/migrations/2025_11_12_200331_create_citas_table.php:11-22 | a fresh database has the given users, empty tables and satisfies the integrity invariant |
| CitaController.Visible | backend/app/Http/Controllers/CitaController.php:18-28 | the reference definition of what `index` selects and `show` admits: for a student the appointments with their `alumno_id`, for any other user all of them |
| CitaController.Index | backend/app/Http/Controllers/CitaController.php:14-32 | `index` lists exactly the visible appointments, each once, by date then time descending; a non-student gets every appointment |
| CitaController.Show | backend/app/Http/Controllers/CitaController.php:67-78 | 404 exactly for an unknown id, 403 exactly for a student asking for another student's appointment, otherwise the row; `show` succeeds exactly on what `index` lists |
| CitaController.CancelStep | backend/app/Http/Controllers/CitaController.php:81-103 | 404, then 403 for a student who is not the owner, then 400 for `atendida`; any failure leaves the table unchanged; on success only `estatus` of that row becomes `cancelada` and no other row changes |
| CitaController.AttendStep | backend/app/Http/Controllers/CitaController.php:106-126 | 403 for a non-doctor before any lookup, then 404; on success the row becomes `atendida` with the acting doctor and the given time, from any status; nothing else changes |
| CitaController.StepsFollowTransitions | backend/app/Http/Controllers/CitaController.php:91-120 | under either step every row's status only stays, becomes `atendida`, or goes from a non-attended status to `cancelada`; an attended appointment is never cancelled |
| CitaController.CancelIdempotent | backend/app/Http/Controllers/CitaController.php:91-102 | cancelling again after a successful cancel succeeds with the same answer and the same table |
| CitaController.AttendedCannotBeCancelled | backend/app/Http/Controllers/CitaController.php:91-95 | after a successful attend, every caller's cancel is refused (400, or 403 for a non-owning student) and changes nothing |
| CitaController.AttendIgnoresPriorStatus | backend/app/Http/Controllers/CitaController.php:114-120 | the outcome of attending is the same whatever the appointment's prior status, `cancelada` and `atendida` included |
| CitaController.StudentCannotTouchOthers | backend/app/Http/Controllers/CitaController.php:73-112 | a student gets 403 with no change when showing, cancelling or attending another student's appointment |
| CitaController.OwnerExists | backend/app/Http/Controllers/CitaController.php:48-55 | `store` can find an owner: the caller is a student, or some user has the given student number, or the given `alumno_id` names a user |
| CitaController.ResolveOwner | backend/app/Http/Controllers/CitaController.php:48-55 | an owner is assigned exactly when `OwnerExists`; the calling student owns the booking whatever the request says; otherwise the user with the given student number, refused with 404 exactly when no user has it; otherwise the request's `alumno_id`, refused with 500 exactly when it is missing or names no user |
| CitaController.FindByNumeroControl | backend/app/Http/Controllers/CitaController.php:51 | finds some user with that student number, and finds none exactly when no user has it |
| CitaController.StoreFailure | backend/app/Http/Controllers/CitaController.php:37-58 | the answer of `store` is settled for every request: 422 exactly when validation fails; `Unfinished` exactly when every drawn key is taken; 404 exactly when a non-student names a student number nobody has; 500 exactly when the insert breaks a column constraint (missing or unknown `alumno_id`, or a reason longer than the 255-character column); otherwise the row is inserted |
| CitaController.NoDoubleBookingCheck | backend/app/Http/Controllers/CitaController.php:35-58 | a student's valid booking is inserted even when a `programada` appointment already holds the same date and time |
| CitaController.Store | backend/app/Http/Controllers/CitaController.php:35-64 | fails exactly as `StoreFailure` says, leaving the table unchanged; otherwise inserts exactly one `programada` row under the next id with a fresh, well-formed key of today, the request's date, time and reason, and the owner `ResolveOwner` picks (the calling student whatever the request says, else the holder of the student number, else the request's `alumno_id`) |
| CitaController.Cancelar | backend/app/Http/Controllers/CitaController.php:81-103 | the answer and the new table are exactly those of `CancelStep`; the integrity invariant holds |
| CitaController.Atender | backend/app/Http/Controllers/CitaController.php:106-126 | the answer and the new table are exactly those of `AttendStep`; the integrity invariant holds |
| RecetaController.Visible | backend/app/Http/Controllers/RecetaController.php:16-24 | the reference definition of what `index` selects and `show` admits: a student's own prescriptions, or all of them |
| RecetaController.Index | backend/app/Http/Controllers/RecetaController.php:12-28 | lists exactly the visible prescriptions, each once, by issue date descending |
| RecetaController.Show | backend/app/Http/Controllers/RecetaController.php:66-77 | 404 exactly for an unknown id, 403 exactly for another student's prescription, otherwise the row |
| RecetaController.HasReceta | backend/app/Http/Controllers/RecetaController.php:47 | the duplicate check `Receta::where('cita_id', …)->exists()`; `Store` answers 422 exactly when it holds |
| RecetaController.Store | backend/app/Http/Controllers/RecetaController.php:31-63 | 403 for a non-doctor, 422 on failed validation, 422 when the appointment already has a prescription, 404 for an unknown appointment, each with no change; otherwise one new row whose student is the appointment's and whose doctor is the caller; at most one prescription per appointment is kept |
| RecetaController.Update | backend/app/Http/Controllers/RecetaController.php:80-102 | 403, then 404, then 422, each with no change; otherwise only medication, instructions and issue date change, and the appointment, student and doctor links stay |
| BitacoraController.Visible | backend/app/Http/Controllers/BitacoraController.php:16-24 | the reference definition of what `index` selects and `show` admits: a student's own logs, or all of them |
| BitacoraController.Index | backend/app/Http/Controllers/BitacoraController.php:12-28 | lists exactly the visible logs, each once, by `created_at` descending |
| BitacoraController.Show | backend/app/Http/Controllers/BitacoraController.php:63-74 | 404 exactly for an unknown id, 403 exactly for another student's log, otherwise the row |
| BitacoraController.Store | backend/app/Http/Controllers/BitacoraController.php:31-60 | 403, then 422, then 404, then 500 when a weight, height, temperature or blood pressure is over the 255-character column, each with no change; otherwise exactly one new row (the table grows by one, even when the appointment already has logs) with the appointment's student and the caller as doctor |
| BitacoraController.Update | backend/app/Http/Controllers/BitacoraController.php:77-103 | 403, then 404, then 422, then 500 when the patched log has one of those four fields over 255 characters, each with no change; otherwise only the clinical fields the request sends change, and the links and creation time stay |
| BitacoraController.Patched | backend/app/Http/Controllers/BitacoraController.php:87-97 | `$bitacora->update($validated)`: each of the seven clinical fields takes the sent value (possibly null) or keeps its own when left out; stated by `Update` and `EmptyPatchKeepsClinical` |
| BitacoraController.EmptyPatchKeepsClinical | backend/app/Http/Controllers/BitacoraController.php:87-97 | an update that sends no clinical field leaves the clinical data as it was |
| CitasComponent.PuedeCancelar | FrontEnd/src/app/componentes/citas/citas.ts:109-112 | `puedeCancelar`; its meaning is stated by `ButtonsExclusive` and `CancelButtonMirrorsServer` |
| CitasComponent.PuedeAtender | FrontEnd/src/app/componentes/citas/citas.ts:114-117 | `puedeAtender`; its meaning is stated by `ButtonsExclusive` and `AttendButtonMirrorsServer` |
| CitasComponent.ButtonsExclusive | FrontEnd/src/app/componentes/citas/citas.ts:109-117 | the cancel and attend buttons never both show; for a status the server sends, cancel shows exactly for `programada` to a student and attend exactly for `programada` to a doctor |
| CitasComponent.CancelButtonMirrorsServer | FrontEnd/src/app/componentes/citas/citas.ts:109-112 | when the cancel button shows to a student for their own appointment, the server's cancel succeeds |
| CitasComponent.AttendButtonMirrorsServer | FrontEnd/src/app/componentes/citas/citas.ts:114-117 | when the attend button shows to a doctor, the appointment is `programada` and the server's attend succeeds, making it `atendida` |
| CitasComponent.ReplaceById | FrontEnd/src/app/componentes/citas/citas.ts:100 | `citas.map(item => item.id === id ? updated : item)`, used by both answers; stated by `ReplaceIsPointUpdate` and `ReplaceAbsentIsIdentity` |
| CitasComponent.ReplaceIsPointUpdate | FrontEnd/src/app/componentes/citas/citas.ts:100 | with distinct ids, replacing by id changes only that item's position: same length, every other item kept, ids still distinct |
| CitasComponent.ReplaceAbsentIsIdentity | FrontEnd/src/app/componentes/citas/citas.ts:130 | replacing an id the list does not hold leaves the list as it was |
| CitasComponent.ErrorText | FrontEnd/src/app/componentes/citas/citas.ts:84 | the server's non-empty `message` if present, otherwise the fallback text |
| CitasComponent.Citas.constructor | FrontEnd/src/app/componentes/citas/citas.ts:15-26 | empty list, no spinner, no banners, nothing being created or cancelled, empty form |
| CitasComponent.Citas.CargarCitas | FrontEnd/src/app/componentes/citas/citas.ts:38-42 | spinner on and both banners cleared before the request |
| CitasComponent.Citas.CargarCitasAnswered | FrontEnd/src/app/componentes/citas/citas.ts:43-54 | success replaces the list; failure keeps it and shows the load error; the spinner stops either way |
| CitasComponent.Citas.AgendarCita | FrontEnd/src/app/componentes/citas/citas.ts:57-71 | an empty date or time sets the error and sends nothing, leaving `creando` as it was; otherwise `creando` rises, the banners clear and the form is sent with an empty reason left out |
| CitasComponent.Citas.AgendarCitaAnswered | FrontEnd/src/app/componentes/citas/citas.ts:73-86 | success shows the message, resets the form and puts the new appointment in front of the unchanged list; failure shows the server's message or the fallback and keeps the list; `creando` drops either way |
| CitasComponent.Citas.CancelarCita | FrontEnd/src/app/componentes/citas/citas.ts:89-95 | the row is marked busy, the banners clear, and its id is sent |
| CitasComponent.Citas.CancelarCitaAnswered | FrontEnd/src/app/componentes/citas/citas.ts:96-106 | success replaces only the items with that id by the server's copy; failure keeps the list and shows the error; no row stays busy |
| CitasComponent.Citas.AtenderCita | FrontEnd/src/app/componentes/citas/citas.ts:119-125 | the row is marked busy, the banners clear, and its id is sent |
| CitasComponent.Citas.AtenderCitaAnswered | FrontEnd/src/app/componentes/citas/citas.ts:126-136 | success replaces only the items with that id; failure keeps the list and shows the error; no row stays busy |
| SignalAuth.PersistedToken | FrontEnd/src/app/services/auth.service.ts:43-50 | the token key is written exactly when the token is truthy, with the token, and removed otherwise |
| SignalAuth.PersistedUser | FrontEnd/src/app/services/auth.service.ts:52-59 | the user key holds the user's JSON exactly when there is a user, and is removed otherwise |
| SignalAuth.RestoreUser | FrontEnd/src/app/services/auth.service.ts:97-108 | null for a missing, empty or unparsable entry; the stored user otherwise |
| SignalAuth.ReloadRestoresSession | FrontEnd/src/app/services/auth.service.ts:93-108 | restoring what the effects saved gives back the same user, and the token exactly when it was non-empty |
| SignalAuth.AuthService.IsAuthenticated | FrontEnd/src/app/services/auth.service.ts:38 | `!!token`; with the effects run, true exactly when the token key is in storage |
| SignalAuth.AuthService.CurrentRole | FrontEnd/src/app/services/auth.service.ts:40 | a role exactly when there is a user; with the effects run, the role of the user stored under the user key |
| SignalAuth.AuthService.constructor | FrontEnd/src/app/services/auth.service.ts:35-59 | the signals start from storage (the user through `restoreUser`) and storage then mirrors them |
| SignalAuth.AuthService.SetSession | FrontEnd/src/app/services/auth.service.ts:80-83 | both signals set; the role is the user's `tipo`; authenticated exactly when the token is non-empty; storage mirrors the signals |
| SignalAuth.AuthService.Login | FrontEnd/src/app/services/auth.service.ts:64-67 | a successful login sets the session to the response's token and user |
| SignalAuth.AuthService.Logout | FrontEnd/src/app/services/auth.service.ts:71-74 | both signals null and both storage keys removed, so not authenticated and no role |
| SignalAuth.AuthService.UpdateUser | FrontEnd/src/app/services/auth.service.ts:76-78 | only the user and its storage entry change; the token and its entry do not (frame) |
| SubjectAuth.RedirectUser | frontend/src/app/services/auth.service.ts:148-159 | `alumno` to `/student-dashboard`, `doctor` to `/doctor-dashboard`, anything else to `/login` |
| SubjectAuth.RedirectUserTargets | frontend/src/app/services/auth.service.ts:148-159 | a type lands on a dashboard exactly when it is one of the two roles, and different roles land on different dashboards |
| SubjectAuth.ReadUser | frontend/src/app/services/auth.service.ts:120-123 | a missing or empty entry reads as null; text `JSON.parse` rejects makes the call throw; a stored user's JSON reads back as that user |
| SubjectAuth.HasRoleIn | frontend/src/app/services/auth.service.ts:126-129 | true exactly when a stored user exists and its `tipo` is the role; throws exactly when the stored entry is unparsable |
| SubjectAuth.AuthService.constructor | frontend/src/app/services/auth.service.ts:39-46 | a readable stored user becomes the current user, and authenticated is true exactly when one is stored; storage is not written |
| SubjectAuth.AuthService.IsAuthenticated | frontend/src/app/services/auth.service.ts:110-112 | the flag; under the service's invariant, true exactly when a user is in memory, and then a user's JSON is in storage |
| SubjectAuth.AuthService.GetToken | frontend/src/app/services/auth.service.ts:115-117 | the `auth_token` entry as stored; the guard reads the same entry |
| SubjectAuth.AuthService.HasRole | frontend/src/app/services/auth.service.ts:120-130 | `hasRole` on the service's storage; while a user is in memory it does not throw and is true exactly for that user's `tipo` |
| SubjectAuth.AuthService.LoginAnswered | frontend/src/app/services/auth.service.ts:51-63 | with a truthy token: token and user stored, authenticated, current user is the response's user, navigation by role, and `hasRole` of that role holds; without one nothing changes |
| SubjectAuth.AuthService.ClearAuthData | frontend/src/app/services/auth.service.ts:102-107 | both keys removed, not authenticated, no user |
| SubjectAuth.AuthService.LogoutAnswered | frontend/src/app/services/auth.service.ts:85-99 | on server success and on server error alike the session is cleared, navigation goes to `/login`, and no role holds afterwards |
| AuthGuard.CanActivate | frontend/src/app/guards/auth.guard.ts:11-66 | never allows without a token (redirect to `/login` with `returnUrl`); allows with no or empty roles; with roles, allows exactly a parsed user of an allowed, non-empty `tipo`; no user redirects to `/login` with `returnUrl`; a wrong-role user goes to `redirectUser` of their type; an unparsable entry goes to `/login` |
| AuthGuard.UserEntryTruthy | frontend/src/app/guards/auth.guard.ts:34-36 | the truthiness of the stored user entry: present and not the empty string |
| AuthGuard.GuardAgreesWithHasRole | frontend/src/app/guards/auth.guard.ts:43-49 | for a one-role route and a token, the guard allows exactly when the service's `hasRole` is true for the same storage |
| AuthGuard.WrongRoleGoesHome | frontend/src/app/guards/auth.guard.ts:53-57 | a wrong-role student or doctor is sent to the dashboard login would pick for them, never to `/login` |

## Left out

- The availability endpoint is left out. The route table maps
  `/citas/disponibilidad` to an `availability` action
  (backend/routes/api.php:28), but the controller has no such method. The special-day configuration is left out with it.
- `store` makes no double-booking check, and nothing auto-cancels past
  appointments; the model has neither. `CitaController.NoDoubleBookingCheck`
  states the first.
- `RecetaController.Store` does not look at the appointment's status, so a
  prescription can be written for an appointment in any status; so can the
  model.
- Laravel validation is one opaque `valid` flag in each request. The rule
  sets are not modelled: dates, `H:i` times, lengths and the `exists:` rules.
  - One consequence concerns `store`. Its `exists:users,numero_control` rule
    means that in practice the 404 of `firstOrFail` cannot be reached after
    a passing validation. The model keeps that branch, as the code has it.
- `CitaController.Store`: when the caller is not a student and sends no
  student number, the code writes the request's raw `alumno_id`. The model
  answers `ServerError500` when that id is missing or unknown, because the
  NOT NULL and foreign-key constraints reject such a row. Likewise a reason
  of 256 to 500 characters passes validation but not the `varchar(255)`
  column, as on PostgreSQL (the database the migrations are written for).
  The exact database error is not modelled; a database that silently
  truncates or accepts long text is not modelled either.
- `BitacoraController.Store` and `BitacoraController.Update` answer
  `ServerError500` for a weight, height, temperature or blood pressure over
  255 characters, for the same reason: validation sets no maximum, and the
  columns are `varchar(255)`. The three clinical `text` columns have no limit.
- `CitaController.FindByNumeroControl`: student numbers are not unique in the
  schema. It returns some matching user, not necessarily the one
  `firstOrFail` would pick.
- `CitaModel.GenerarClaveCita`: the clock and `md5(time() . rand())` are left
  out. The date and the sequence of 32-character lowercase hex digests are
  parameters.
  - The source loops until a key is free, possibly forever. The model stops
    after the digests it is given and then returns no key.
  - `CitaController.Store` answers `Unfinished` in that case.
- `CitaController.AttendStep`: `now()` is a parameter.
- `created_at` and `updated_at` are not kept on appointments or
  prescriptions. For logs, `created_at` is the store's `now` parameter. It
  is used only for ordering.
- Eager-loaded relations (`with`, `load`) are left out, and so are the JSON
  message texts of the backend's answers. A response carries only its status
  and its record.
- Dates and times are orderable only as ranks. `DateRank` and `TimeRank`
  match the database order only for calendar dates and valid clock times.
- PHP's strict `!==` between the stored `alumno_id` and the user id is
  modelled as integer inequality. A driver that returns ids as strings would
  make every student comparison unequal, and that is not modelled.
- Concurrency is left out: check-then-insert races in key generation,
  prescription uniqueness and booking. The model is sequential.
- `SignalAuth.AuthService`: Angular effects run asynchronously after a signal
  changes. The model applies them at the end of each method, so storage
  mirrors the signals between calls, not in the middle of one.
- `SignalAuth.AuthService`: `getToken` and `isLoggedIn` duplicate
  `IsAuthenticated` and the token field. They have no separate member.
- `SubjectAuth.AuthService.constructor`: the source calls `JSON.parse` with no
  `try`, so an unparsable stored user makes construction throw. The model
  requires a readable (or missing) entry and does not model the throw.
- `SignalAuth.ReloadRestoresSession`: `JSON.parse(JSON.stringify(user))`
  giving back the same user is an assumption of the storage abstraction (a
  stored entry is the user itself, or text the parser rejects), not a result
  the model proves about JSON.
- Stored JSON text that parses to something other than a user object is not
  modelled. This includes `null`, a number, and an object without `tipo`.
  Stored user entries are either a user's JSON or text the parser rejects.
- Router navigation is a returned value (`navigation`, `Decision`), not a
  call into the router. The `console.error` logging is left out.
- Login and logout HTTP requests are not modelled. Only the handling of their
  answers is: `LoginAnswered`, `LogoutAnswered`, `Login`.
- These parts are not part of this model:
  - `AuthController` and `PerfilController`: password hashing and token
    issuance;
  - the HTTP client wrappers;
  - the auth interceptor;
  - `public.guard.ts`, a one-line wrapper over `isAuthenticated`;
  - the dashboards, the login and profile screens, and the route tables.
