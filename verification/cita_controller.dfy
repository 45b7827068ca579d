/**
 * The appointment endpoints (app/Http/Controllers/CitaController.php):
 * listing, booking, showing, cancelling and marking attended, with the
 * role checks that gate them.
 *
 * Cancelling and attending are state-machine steps over the `citas`
 * table: CancelStep and AttendStep say what answer each gives and what the
 * table becomes, and the methods Cancelar and Atender carry them out on the
 * store.
 */
module CitaController {
  import opened Common
  import opened Users
  import opened CitaModel
  import opened Database
  import Query

  // ---------------------------------------------------------------------
  // index and show
  // ---------------------------------------------------------------------

  /** The appointments `caller` may read: a student only their own, any other user all of them. */
  function Visible(citas: map<Id, Cita>, caller: User): (ids: set<Id>)
    ensures ids <= citas.Keys
    ensures forall id :: id in ids <==> id in citas && (EsAlumno(caller) ==> citas[id].alumnoId == caller.id)
  {
    set id | id in citas && (EsAlumno(caller) ==> citas[id].alumnoId == caller.id)
  }

  /** The listing order: `fecha_cita` descending, then `hora_cita` descending. */
  function CitaKeys(citas: map<Id, Cita>): map<Id, Query.Key>
  {
    map id | id in citas :: Query.Key(DateRank(citas[id].fechaCita), TimeRank(citas[id].horaCita))
  }

  /**
   * `index`: a student gets exactly their own appointments, anyone else
   * gets every appointment; each once, latest date and time first.
   */
  method Index(citas: map<Id, Cita>, caller: User) returns (r: seq<Id>)
    ensures forall id :: id in r <==> id in citas && (EsAlumno(caller) ==> citas[id].alumnoId == caller.id)
    ensures !EsAlumno(caller) ==> multiset(r) == multiset(citas.Keys)
    ensures multiset(r) == multiset(Visible(citas, caller))
    ensures Query.SortedDesc(r, CitaKeys(citas))
  {
    r := Query.OrderByDesc(Visible(citas, caller), CitaKeys(citas));
  }

  /**
   * `show`: an unknown id is 404; a student asking for another student's
   * appointment is 403; otherwise the row. The rows `show` returns are
   * exactly the rows `index` lists for the same caller.
   */
  function Show(citas: map<Id, Cita>, caller: User, id: Id): (r: Response<Cita>)
    ensures r.Ok? <==> id in Visible(citas, caller)
    ensures r.Ok? ==> r.body == citas[id]
    ensures r == NotFound404 <==> id !in citas
    ensures r == Forbidden403 <==> id in citas && EsAlumno(caller) && citas[id].alumnoId != caller.id
  {
    if id !in citas then NotFound404
    else if EsAlumno(caller) && citas[id].alumnoId != caller.id then Forbidden403
    else Ok(citas[id])
  }

  // ---------------------------------------------------------------------
  // The lifecycle steps
  // ---------------------------------------------------------------------

  /** The answer of an action together with the `citas` table after it. */
  datatype Step = Step(response: Response<Cita>, citas: map<Id, Cita>)

  /**
   * `cancelar`: 404 for an unknown id, 403 for a student who does not own
   * the appointment, 400 for an attended one; otherwise only `estatus`
   * becomes `cancelada`, whatever it was (so an already-cancelled
   * appointment is cancelled again successfully). Every failure leaves the
   * table as it was.
   */
  function CancelStep(citas: map<Id, Cita>, caller: User, id: Id): (s: Step)
    ensures s.citas.Keys == citas.Keys && BookingsKept(citas, s.citas)
    ensures forall k :: k in citas && k != id ==> s.citas[k] == citas[k]
    ensures !s.response.Ok? ==> s.citas == citas
    ensures id !in citas ==> s.response == NotFound404
    ensures id in citas && id !in Visible(citas, caller) ==> s.response == Forbidden403
    ensures id in Visible(citas, caller) && citas[id].estatus == Atendida ==> s.response == BadRequest400
    ensures id in Visible(citas, caller) && citas[id].estatus != Atendida ==>
      && s.response == Ok(s.citas[id])
      && s.citas[id] == citas[id].(estatus := Cancelada)
  {
    if id !in citas then Step(NotFound404, citas)
    else if EsAlumno(caller) && citas[id].alumnoId != caller.id then Step(Forbidden403, citas)
    else if citas[id].estatus == Atendida then Step(BadRequest400, citas)
    else
      var cancelled := citas[id].(estatus := Cancelada);
      Step(Ok(cancelled), citas[id := cancelled])
  }

  /**
   * `atender`: anyone but a doctor gets 403 before any lookup; an unknown
   * id is 404; otherwise, from any status, the appointment becomes
   * `atendida`, bound to the acting doctor and stamped with `now`.
   */
  function AttendStep(citas: map<Id, Cita>, caller: User, id: Id, now: Timestamp): (s: Step)
    ensures s.citas.Keys == citas.Keys && BookingsKept(citas, s.citas)
    ensures forall k :: k in citas && k != id ==> s.citas[k] == citas[k]
    ensures !s.response.Ok? ==> s.citas == citas
    ensures !EsDoctor(caller) ==> s.response == Forbidden403
    ensures EsDoctor(caller) && id !in citas ==> s.response == NotFound404
    ensures EsDoctor(caller) && id in citas ==>
      && s.response == Ok(s.citas[id])
      && s.citas[id].estatus == Atendida
      && s.citas[id].doctorId == Some(caller.id)
      && s.citas[id].fechaHoraAtencion == Some(now)
  {
    if !EsDoctor(caller) then Step(Forbidden403, citas)
    else if id !in citas then Step(NotFound404, citas)
    else
      var attended := citas[id].(estatus := Atendida, doctorId := Some(caller.id), fechaHoraAtencion := Some(now));
      Step(Ok(attended), citas[id := attended])
  }

  /** The status moves the two steps can make: stay, become attended, or leave a non-attended status for cancelled. */
  predicate Transition(before: Estatus, after: Estatus)
  {
    before == after || after == Atendida || (before != Atendida && after == Cancelada)
  }

  /**
   * Every row moves only along Transition under either step; in
   * particular an attended appointment stays attended.
   */
  lemma StepsFollowTransitions(citas: map<Id, Cita>, caller: User, id: Id, now: Timestamp)
    ensures forall k :: k in citas ==> Transition(citas[k].estatus, CancelStep(citas, caller, id).citas[k].estatus)
    ensures forall k :: k in citas ==> Transition(citas[k].estatus, AttendStep(citas, caller, id, now).citas[k].estatus)
    ensures forall k :: k in citas && citas[k].estatus == Atendida ==> CancelStep(citas, caller, id).citas[k].estatus == Atendida
  {
  }

  /** Cancelling twice is cancelling once: the second call succeeds and changes nothing more. */
  lemma CancelIdempotent(citas: map<Id, Cita>, caller: User, id: Id)
    requires CancelStep(citas, caller, id).response.Ok?
    ensures CancelStep(CancelStep(citas, caller, id).citas, caller, id) == CancelStep(citas, caller, id)
  {
    var once := CancelStep(citas, caller, id).citas;
    assert once[id := once[id].(estatus := Cancelada)] == once;
  }

  /** After a successful attend, no caller can cancel that appointment, and the table stays as it is. */
  lemma AttendedCannotBeCancelled(citas: map<Id, Cita>, doctor: User, id: Id, now: Timestamp, caller: User)
    requires AttendStep(citas, doctor, id, now).response.Ok?
    ensures
      var attended := AttendStep(citas, doctor, id, now).citas;
      var s := CancelStep(attended, caller, id);
      s.citas == attended && (s.response == BadRequest400 || s.response == Forbidden403)
  {
  }

  /**
   * Attending does not look at the prior status: the outcome is the same
   * whatever status the appointment had, including `cancelada` and
   * `atendida` (a second attend rebinds the doctor and the time).
   */
  lemma AttendIgnoresPriorStatus(citas: map<Id, Cita>, caller: User, id: Id, now: Timestamp, prior: Estatus)
    requires id in citas
    ensures AttendStep(citas[id := citas[id].(estatus := prior)], caller, id, now).response.Ok?
            == AttendStep(citas, caller, id, now).response.Ok?
    ensures EsDoctor(caller) ==>
      AttendStep(citas[id := citas[id].(estatus := prior)], caller, id, now).citas == AttendStep(citas, caller, id, now).citas
  {
    if EsDoctor(caller) {
      var other := citas[id := citas[id].(estatus := prior)];
      assert AttendStep(other, caller, id, now).citas[id] == AttendStep(citas, caller, id, now).citas[id];
    }
  }

  /** A student can neither cancel nor attend an appointment of another student, and the table stays as it is. */
  lemma StudentCannotTouchOthers(citas: map<Id, Cita>, student: User, id: Id, now: Timestamp)
    requires EsAlumno(student) && id in citas && citas[id].alumnoId != student.id
    ensures CancelStep(citas, student, id) == Step(Forbidden403, citas)
    ensures AttendStep(citas, student, id, now) == Step(Forbidden403, citas)
    ensures Show(citas, student, id) == Forbidden403
  {
  }

  // ---------------------------------------------------------------------
  // store
  // ---------------------------------------------------------------------

  /**
   * The body of a booking request. `valid` is the verdict of the
   * framework's validation rules (a date from today on, an `H:i` time, a
   * reason of at most 500 characters, a known student number).
   */
  datatype StoreRequest = StoreRequest(
    valid: bool,
    fechaCita: Date,
    horaCita: Time,
    motivo: Option<string>,
    numeroControl: Option<string>,
    alumnoId: Option<Id>)

  /** `User::where('numero_control', nc)->firstOrFail()`: some user with that student number, if any. */
  method FindByNumeroControl(users: map<Id, User>, nc: string) returns (found: Option<Id>)
    ensures found.Some? ==> found.value in users && users[found.value].numeroControl == Some(nc)
    ensures found.None? <==> forall id :: id in users ==> users[id].numeroControl != Some(nc)
  {
    if exists id :: id in users && users[id].numeroControl == Some(nc) {
      var id :| id in users && users[id].numeroControl == Some(nc);
      found := Some(id);
    } else {
      found := None;
    }
  }

  /** The student a booking is for, or the answer `store` gives instead. */
  datatype Owner = Assigned(id: Id) | Refused(response: Response<Cita>)

  /**
   * `store` can find an owner: the caller is a student, or some user has
   * the student number the request fills in, or the request's `alumno_id`
   * names a user.
   */
  predicate OwnerExists(users: map<Id, User>, caller: User, req: StoreRequest)
  {
    || EsAlumno(caller)
    || (Filled(req.numeroControl) && exists id :: id in users && users[id].numeroControl == req.numeroControl)
    || (!Filled(req.numeroControl) && req.alumnoId.Some? && req.alumnoId.value in users)
  }

  /**
   * How `store` picks the student: the caller when the caller is a student,
   * whatever the request says; otherwise the user with the given student
   * number (404 when there is none); otherwise the request's raw
   * `alumno_id`, which the table's NOT NULL and foreign-key constraints
   * reject (500) when it is missing or names no user.
   */
  method ResolveOwner(users: map<Id, User>, caller: User, req: StoreRequest) returns (o: Owner)
    ensures o.Assigned? <==> OwnerExists(users, caller, req)
    ensures EsAlumno(caller) ==> o == Assigned(caller.id)
    ensures !EsAlumno(caller) && Filled(req.numeroControl) ==>
      && (o.Assigned? ==> o.id in users && users[o.id].numeroControl == req.numeroControl)
      && (o.Refused? <==> forall id :: id in users ==> users[id].numeroControl != req.numeroControl)
      && (o.Refused? ==> o.response == NotFound404)
    ensures !EsAlumno(caller) && !Filled(req.numeroControl) ==>
      && (o.Assigned? ==> req.alumnoId == Some(o.id) && o.id in users)
      && (o.Refused? <==> req.alumnoId.None? || req.alumnoId.value !in users)
      && (o.Refused? ==> o.response == ServerError500)
  {
    if EsAlumno(caller) {
      o := Assigned(caller.id);
    } else if Filled(req.numeroControl) {
      var found := FindByNumeroControl(users, req.numeroControl.value);
      o := if found.None? then Refused(NotFound404) else Assigned(found.value);
    } else if req.alumnoId.None? || req.alumnoId.value !in users {
      o := Refused(ServerError500);
    } else {
      o := Assigned(req.alumnoId.value);
    }
  }

  /**
   * The answer `store` gives instead of inserting, or None when it inserts,
   * following the source's order: validation, key generation, owner
   * lookup, then the insert's column constraints. The answer is settled for
   * every request:
   *  - 422 exactly when validation fails;
   *  - `Unfinished` exactly when every drawn key is taken (the source keeps
   *    drawing);
   *  - 404 exactly when a non-student names a student number nobody has;
   *  - 500 exactly when the insert violates a column constraint: a missing
   *    or unknown `alumno_id`, or a reason longer than its column (the
   *    validation rule allows up to 500 characters);
   *  - otherwise the row is inserted.
   */
  function StoreFailure(users: map<Id, User>, citas: map<Id, Cita>, caller: User, req: StoreRequest,
                        today: Date, hashes: seq<string>): (f: Option<Response<Cita>>)
    requires ClockDate(today)
    requires forall i :: 0 <= i < |hashes| ==> IsMd5Hex(hashes[i])
    ensures f.None? || f.value in {Unprocessable422, NotFound404, ServerError500, Unfinished}
    ensures f == Some(Unprocessable422) <==> !req.valid
    ensures f == Some(Unfinished) <==> req.valid && !FreeCandidate(citas, today, hashes)
    ensures f == Some(NotFound404) <==>
      && req.valid && FreeCandidate(citas, today, hashes)
      && !EsAlumno(caller) && Filled(req.numeroControl)
      && forall id :: id in users ==> users[id].numeroControl != req.numeroControl
    ensures f == Some(ServerError500) <==>
      && req.valid && FreeCandidate(citas, today, hashes)
      && ((!EsAlumno(caller) && !Filled(req.numeroControl) && (req.alumnoId.None? || req.alumnoId.value !in users))
          || (OwnerExists(users, caller, req) && !FitsStringColumn(req.motivo)))
    ensures f.None? <==>
      req.valid && FreeCandidate(citas, today, hashes) && OwnerExists(users, caller, req) && FitsStringColumn(req.motivo)
  {
    if !req.valid then Some(Unprocessable422)
    else if !FreeCandidate(citas, today, hashes) then Some(Unfinished)
    else if EsAlumno(caller) then
      if FitsStringColumn(req.motivo) then None else Some(ServerError500)
    else if Filled(req.numeroControl) then
      if forall id :: id in users ==> users[id].numeroControl != req.numeroControl then Some(NotFound404)
      else if FitsStringColumn(req.motivo) then None
      else Some(ServerError500)
    else if req.alumnoId.None? || req.alumnoId.value !in users then Some(ServerError500)
    else if FitsStringColumn(req.motivo) then None
    else Some(ServerError500)
  }

  /**
   * `store` looks at no other booking: a student's valid request with a
   * free key and a reason that fits is inserted even when a `programada`
   * appointment already holds the same date and time.
   */
  lemma NoDoubleBookingCheck(users: map<Id, User>, citas: map<Id, Cita>, caller: User, req: StoreRequest,
                             today: Date, hashes: seq<string>, other: Id)
    requires ClockDate(today)
    requires forall i :: 0 <= i < |hashes| ==> IsMd5Hex(hashes[i])
    requires other in citas && citas[other].estatus == Programada
    requires citas[other].fechaCita == req.fechaCita && citas[other].horaCita == req.horaCita
    requires req.valid && EsAlumno(caller) && FreeCandidate(citas, today, hashes) && FitsStringColumn(req.motivo)
    ensures StoreFailure(users, citas, caller, req, today, hashes).None?
  {
  }

  /**
   * `store`: after validation, draw a fresh key, pick the owner by the
   * caller's role and insert the appointment as `programada` with the next
   * id. It fails exactly as StoreFailure says, and leaves the table as it
   * was when it does. No check against other bookings of the same date and
   * time is made.
   */
  method Store(db: Db, caller: User, req: StoreRequest, today: Date, hashes: seq<string>) returns (r: Response<Cita>)
    requires db.Valid()
    requires ClockDate(today)
    requires forall i :: 0 <= i < |hashes| ==> IsMd5Hex(hashes[i])
    modifies db`citas, db`nextCita
    ensures db.Valid()
    ensures r.Created? <==> StoreFailure(db.users, old(db.citas), caller, req, today, hashes).None?
    ensures !r.Created? ==> Some(r) == StoreFailure(db.users, old(db.citas), caller, req, today, hashes)
    ensures !r.Created? ==> db.citas == old(db.citas) && db.nextCita == old(db.nextCita)
    ensures r.Created? ==>
      && old(db.nextCita) !in old(db.citas)
      && db.citas == old(db.citas)[old(db.nextCita) := r.body]
      && r.body.estatus == Programada
      && r.body.doctorId == None && r.body.fechaHoraAtencion == None && r.body.notas == None
      && r.body.fechaCita == req.fechaCita && r.body.horaCita == req.horaCita && r.body.motivo == req.motivo
      && !Taken(old(db.citas), r.body.claveCita)
      && WellFormedClave(r.body.claveCita) && ClaveDate(r.body.claveCita) == today
    ensures r.Created? && EsAlumno(caller) ==> r.body.alumnoId == caller.id
    ensures r.Created? && !EsAlumno(caller) && Filled(req.numeroControl) ==>
      r.body.alumnoId in db.users && db.users[r.body.alumnoId].numeroControl == req.numeroControl
    ensures r.Created? && !EsAlumno(caller) && !Filled(req.numeroControl) ==>
      req.alumnoId == Some(r.body.alumnoId) && r.body.alumnoId in db.users
  {
    if !req.valid {
      return Unprocessable422;
    }
    var clave, _ := GenerarClaveCita(db.citas, today, hashes);
    if clave.None? {
      return Unfinished;
    }
    var owner := ResolveOwner(db.users, caller, req);
    if owner.Refused? {
      return owner.response;
    }
    if !FitsStringColumn(req.motivo) {
      return ServerError500;
    }
    var cita := Cita(clave.value, owner.id, None, req.fechaCita, req.horaCita, req.motivo, Programada, None, None);
    InsertFreshCitaKeepsIntegrity(db.citas, db.nextCita, cita, db.recetas, db.bitacoras);
    db.citas := db.citas[db.nextCita := cita];
    db.nextCita := db.nextCita + 1;
    r := Created(cita);
  }

  // ---------------------------------------------------------------------
  // cancelar and atender
  // ---------------------------------------------------------------------

  /** `cancelar` on the store: the answer and the new table are those of CancelStep; nothing else changes. */
  method Cancelar(db: Db, caller: User, id: Id) returns (r: Response<Cita>)
    requires db.Valid()
    modifies db`citas
    ensures db.Valid()
    ensures Step(r, db.citas) == CancelStep(old(db.citas), caller, id)
  {
    if id !in db.citas {
      return NotFound404;
    }
    var cita := db.citas[id];
    if EsAlumno(caller) && cita.alumnoId != caller.id {
      return Forbidden403;
    }
    if cita.estatus == Atendida {
      return BadRequest400;
    }
    cita := cita.(estatus := Cancelada);
    db.citas := db.citas[id := cita];
    r := Ok(cita);
    BookingsKeptPreservesIntegrity(old(db.citas), db.citas, db.recetas, db.bitacoras);
  }

  /** `atender` on the store: the answer and the new table are those of AttendStep; nothing else changes. */
  method Atender(db: Db, caller: User, id: Id, now: Timestamp) returns (r: Response<Cita>)
    requires db.Valid()
    modifies db`citas
    ensures db.Valid()
    ensures Step(r, db.citas) == AttendStep(old(db.citas), caller, id, now)
  {
    if !EsDoctor(caller) {
      return Forbidden403;
    }
    if id !in db.citas {
      return NotFound404;
    }
    var cita := db.citas[id].(estatus := Atendida, doctorId := Some(caller.id), fechaHoraAtencion := Some(now));
    db.citas := db.citas[id := cita];
    r := Ok(cita);
    BookingsKeptPreservesIntegrity(old(db.citas), db.citas, db.recetas, db.bitacoras);
  }
}
