/**
 * The visit-log endpoints (app/Http/Controllers/BitacoraController.php).
 * Only doctors write; the student of a new log is copied from its
 * appointment; an appointment may have any number of logs.
 */
module BitacoraController {
  import opened Common
  import opened Users
  import opened CitaModel
  import opened Database
  import Query

  /** The logs `caller` may read: a student only their own, any other user all of them. */
  function Visible(bitacoras: map<Id, Bitacora>, caller: User): (ids: set<Id>)
    ensures ids <= bitacoras.Keys
    ensures forall id :: id in ids <==> id in bitacoras && (EsAlumno(caller) ==> bitacoras[id].alumnoId == caller.id)
  {
    set id | id in bitacoras && (EsAlumno(caller) ==> bitacoras[id].alumnoId == caller.id)
  }

  /** The listing order: `created_at` descending. */
  function BitacoraKeys(bitacoras: map<Id, Bitacora>): map<Id, Query.Key>
  {
    map id | id in bitacoras :: Query.Key(bitacoras[id].createdAt, 0)
  }

  /** `index`: a student gets exactly their own logs, anyone else all; newest first. */
  method Index(bitacoras: map<Id, Bitacora>, caller: User) returns (r: seq<Id>)
    ensures forall id :: id in r <==> id in bitacoras && (EsAlumno(caller) ==> bitacoras[id].alumnoId == caller.id)
    ensures multiset(r) == multiset(Visible(bitacoras, caller))
    ensures Query.SortedDesc(r, BitacoraKeys(bitacoras))
  {
    r := Query.OrderByDesc(Visible(bitacoras, caller), BitacoraKeys(bitacoras));
  }

  /** `show`: 404 for an unknown id, 403 for a student asking for another student's log, else the row. */
  function Show(bitacoras: map<Id, Bitacora>, caller: User, id: Id): (r: Response<Bitacora>)
    ensures r.Ok? <==> id in Visible(bitacoras, caller)
    ensures r.Ok? ==> r.body == bitacoras[id]
    ensures r == NotFound404 <==> id !in bitacoras
    ensures r == Forbidden403 <==> id in bitacoras && EsAlumno(caller) && bitacoras[id].alumnoId != caller.id
  {
    if id !in bitacoras then NotFound404
    else if EsAlumno(caller) && bitacoras[id].alumnoId != caller.id then Forbidden403
    else Ok(bitacoras[id])
  }

  /** The body of a create request; absent nullable fields are stored as null. */
  datatype StoreRequest = StoreRequest(valid: bool, citaId: Id, clinical: Clinical)

  /** One field of an update request: left out of the request, or sent with a value (possibly null). */
  datatype Patch = Keep | Put(value: Option<string>)

  function Apply(p: Patch, current: Option<string>): Option<string>
  {
    match p
    case Keep => current
    case Put(v) => v
  }

  /** The body of an update request: one patch per clinical field. */
  datatype UpdateRequest = UpdateRequest(
    valid: bool,
    diagnostico: Patch,
    tratamiento: Patch,
    observaciones: Patch,
    peso: Patch,
    altura: Patch,
    temperatura: Patch,
    presionArterial: Patch)

  /** The clinical fields after applying the request's patches; fields left out keep their value. */
  function Patched(c: Clinical, req: UpdateRequest): Clinical
  {
    Clinical(
      Apply(req.diagnostico, c.diagnostico),
      Apply(req.tratamiento, c.tratamiento),
      Apply(req.observaciones, c.observaciones),
      Apply(req.peso, c.peso),
      Apply(req.altura, c.altura),
      Apply(req.temperatura, c.temperatura),
      Apply(req.presionArterial, c.presionArterial))
  }

  /** An update that sends no field leaves the log's clinical data as it was. */
  lemma EmptyPatchKeepsClinical(c: Clinical, valid: bool)
    ensures Patched(c, UpdateRequest(valid, Keep, Keep, Keep, Keep, Keep, Keep, Keep)) == c
  {
  }

  /**
   * `store`: 403 for a non-doctor, 422 when validation fails, 404 when the
   * appointment does not exist, 500 when a short clinical field overflows
   * its `varchar(255)` column (validation sets no maximum); otherwise one
   * new row with the appointment's student and the caller as doctor. There is no check for
   * logs the appointment already has: a doctor's valid request for an
   * existing appointment always inserts.
   */
  method Store(db: Db, caller: User, req: StoreRequest, now: Timestamp) returns (r: Response<Bitacora>)
    requires db.Valid()
    modifies db`bitacoras, db`nextBitacora
    ensures db.Valid()
    ensures !r.Created? ==> db.bitacoras == old(db.bitacoras) && db.nextBitacora == old(db.nextBitacora)
    ensures !EsDoctor(caller) ==> r == Forbidden403
    ensures EsDoctor(caller) && !req.valid ==> r == Unprocessable422
    ensures EsDoctor(caller) && req.valid && req.citaId !in db.citas ==> r == NotFound404
    ensures EsDoctor(caller) && req.valid && req.citaId in db.citas && !ClinicalFits(req.clinical) ==> r == ServerError500
    ensures EsDoctor(caller) && req.valid && req.citaId in db.citas && ClinicalFits(req.clinical) ==>
      && r == Created(Bitacora(req.citaId, db.citas[req.citaId].alumnoId, caller.id, req.clinical, now))
      && old(db.nextBitacora) !in old(db.bitacoras)
      && db.bitacoras == old(db.bitacoras)[old(db.nextBitacora) := r.body]
      && |db.bitacoras| == |old(db.bitacoras)| + 1
  {
    if !EsDoctor(caller) {
      return Forbidden403;
    }
    if !req.valid {
      return Unprocessable422;
    }
    if req.citaId !in db.citas {
      return NotFound404;
    }
    if !ClinicalFits(req.clinical) {
      return ServerError500;
    }
    var bitacora := Bitacora(req.citaId, db.citas[req.citaId].alumnoId, caller.id, req.clinical, now);
    db.bitacoras := db.bitacoras[db.nextBitacora := bitacora];
    db.nextBitacora := db.nextBitacora + 1;
    r := Created(bitacora);
  }

  /**
   * `update`: 403 for a non-doctor, 404 for an unknown id, 422 when
   * validation fails, 500 when the patched log has a short clinical field
   * over its `varchar(255)` column; otherwise only the clinical fields the
   * request sends change, while the appointment, student and doctor links stay.
   */
  method Update(db: Db, caller: User, id: Id, req: UpdateRequest) returns (r: Response<Bitacora>)
    requires db.Valid()
    modifies db`bitacoras
    ensures db.Valid()
    ensures !r.Ok? ==> db.bitacoras == old(db.bitacoras)
    ensures !EsDoctor(caller) ==> r == Forbidden403
    ensures EsDoctor(caller) && id !in old(db.bitacoras) ==> r == NotFound404
    ensures EsDoctor(caller) && id in old(db.bitacoras) && !req.valid ==> r == Unprocessable422
    ensures EsDoctor(caller) && id in old(db.bitacoras) && req.valid && !ClinicalFits(Patched(old(db.bitacoras)[id].clinical, req)) ==>
      r == ServerError500
    ensures EsDoctor(caller) && id in old(db.bitacoras) && req.valid && ClinicalFits(Patched(old(db.bitacoras)[id].clinical, req)) ==>
      && r.Ok?
      && db.bitacoras == old(db.bitacoras)[id := r.body]
      && r.body.citaId == old(db.bitacoras)[id].citaId
      && r.body.alumnoId == old(db.bitacoras)[id].alumnoId
      && r.body.doctorId == old(db.bitacoras)[id].doctorId
      && r.body.createdAt == old(db.bitacoras)[id].createdAt
      && r.body.clinical == Patched(old(db.bitacoras)[id].clinical, req)
  {
    if !EsDoctor(caller) {
      return Forbidden403;
    }
    if id !in db.bitacoras {
      return NotFound404;
    }
    if !req.valid {
      return Unprocessable422;
    }
    var clinical := Patched(db.bitacoras[id].clinical, req);
    if !ClinicalFits(clinical) {
      return ServerError500;
    }
    var bitacora := db.bitacoras[id].(clinical := clinical);
    db.bitacoras := db.bitacoras[id := bitacora];
    r := Ok(bitacora);
  }
}
