/**
 * The prescription endpoints (app/Http/Controllers/RecetaController.php).
 * Only doctors write; at most one prescription exists per appointment; the
 * student of a new prescription is copied from its appointment.
 */
module RecetaController {
  import opened Common
  import opened Users
  import opened CitaModel
  import opened Database
  import Query

  /** The prescriptions `caller` may read: a student only their own, any other user all of them. */
  function Visible(recetas: map<Id, Receta>, caller: User): (ids: set<Id>)
    ensures ids <= recetas.Keys
    ensures forall id :: id in ids <==> id in recetas && (EsAlumno(caller) ==> recetas[id].alumnoId == caller.id)
  {
    set id | id in recetas && (EsAlumno(caller) ==> recetas[id].alumnoId == caller.id)
  }

  /** The listing order: `fecha_emision` descending. */
  function RecetaKeys(recetas: map<Id, Receta>): map<Id, Query.Key>
  {
    map id | id in recetas :: Query.Key(DateRank(recetas[id].fechaEmision), 0)
  }

  /** `index`: a student gets exactly their own prescriptions, anyone else all; latest issue date first. */
  method Index(recetas: map<Id, Receta>, caller: User) returns (r: seq<Id>)
    ensures forall id :: id in r <==> id in recetas && (EsAlumno(caller) ==> recetas[id].alumnoId == caller.id)
    ensures multiset(r) == multiset(Visible(recetas, caller))
    ensures Query.SortedDesc(r, RecetaKeys(recetas))
  {
    r := Query.OrderByDesc(Visible(recetas, caller), RecetaKeys(recetas));
  }

  /** `show`: 404 for an unknown id, 403 for a student asking for another student's prescription, else the row. */
  function Show(recetas: map<Id, Receta>, caller: User, id: Id): (r: Response<Receta>)
    ensures r.Ok? <==> id in Visible(recetas, caller)
    ensures r.Ok? ==> r.body == recetas[id]
    ensures r == NotFound404 <==> id !in recetas
    ensures r == Forbidden403 <==> id in recetas && EsAlumno(caller) && recetas[id].alumnoId != caller.id
  {
    if id !in recetas then NotFound404
    else if EsAlumno(caller) && recetas[id].alumnoId != caller.id then Forbidden403
    else Ok(recetas[id])
  }

  /** Some prescription already refers to appointment `citaId`. */
  predicate HasReceta(recetas: map<Id, Receta>, citaId: Id)
  {
    exists id :: id in recetas && recetas[id].citaId == citaId
  }

  /** The body of a create request; `valid` is the verdict of the framework's validation rules. */
  datatype StoreRequest = StoreRequest(valid: bool, citaId: Id, medicamentos: string, indicaciones: string, fechaEmision: Date)

  /** The body of an update request; `valid` is the verdict of the framework's validation rules. */
  datatype UpdateRequest = UpdateRequest(valid: bool, medicamentos: string, indicaciones: string, fechaEmision: Date)

  /**
   * `store`: 403 for a non-doctor, 422 when validation fails, 422 when the
   * appointment already has a prescription, 404 when the appointment does
   * not exist; otherwise one new row with the appointment's student and the
   * caller as doctor. Every failure leaves the table as it was, and the
   * one-per-appointment invariant is kept.
   */
  method Store(db: Db, caller: User, req: StoreRequest) returns (r: Response<Receta>)
    requires db.Valid()
    modifies db`recetas, db`nextReceta
    ensures db.Valid()
    ensures !r.Created? ==> db.recetas == old(db.recetas) && db.nextReceta == old(db.nextReceta)
    ensures !EsDoctor(caller) ==> r == Forbidden403
    ensures EsDoctor(caller) && !req.valid ==> r == Unprocessable422
    ensures EsDoctor(caller) && req.valid && HasReceta(old(db.recetas), req.citaId) ==> r == Unprocessable422
    ensures EsDoctor(caller) && req.valid && !HasReceta(old(db.recetas), req.citaId) && req.citaId !in db.citas ==>
      r == NotFound404
    ensures EsDoctor(caller) && req.valid && !HasReceta(old(db.recetas), req.citaId) && req.citaId in db.citas ==>
      && r == Created(Receta(req.citaId, db.citas[req.citaId].alumnoId, caller.id,
                             req.medicamentos, req.indicaciones, req.fechaEmision))
      && old(db.nextReceta) !in old(db.recetas)
      && db.recetas == old(db.recetas)[old(db.nextReceta) := r.body]
  {
    if !EsDoctor(caller) {
      return Forbidden403;
    }
    if !req.valid {
      return Unprocessable422;
    }
    if HasReceta(db.recetas, req.citaId) {
      return Unprocessable422;
    }
    if req.citaId !in db.citas {
      return NotFound404;
    }
    var receta := Receta(req.citaId, db.citas[req.citaId].alumnoId, caller.id,
                         req.medicamentos, req.indicaciones, req.fechaEmision);
    db.recetas := db.recetas[db.nextReceta := receta];
    db.nextReceta := db.nextReceta + 1;
    r := Created(receta);
  }

  /**
   * `update`: 403 for a non-doctor, 404 for an unknown id, 422 when
   * validation fails; otherwise only the medication, the instructions and
   * the issue date change, while the appointment, student and doctor links
   * stay as they were.
   */
  method Update(db: Db, caller: User, id: Id, req: UpdateRequest) returns (r: Response<Receta>)
    requires db.Valid()
    modifies db`recetas
    ensures db.Valid()
    ensures !r.Ok? ==> db.recetas == old(db.recetas)
    ensures !EsDoctor(caller) ==> r == Forbidden403
    ensures EsDoctor(caller) && id !in old(db.recetas) ==> r == NotFound404
    ensures EsDoctor(caller) && id in old(db.recetas) && !req.valid ==> r == Unprocessable422
    ensures EsDoctor(caller) && id in old(db.recetas) && req.valid ==>
      && r.Ok?
      && db.recetas == old(db.recetas)[id := r.body]
      && r.body.citaId == old(db.recetas)[id].citaId
      && r.body.alumnoId == old(db.recetas)[id].alumnoId
      && r.body.doctorId == old(db.recetas)[id].doctorId
      && r.body.medicamentos == req.medicamentos
      && r.body.indicaciones == req.indicaciones
      && r.body.fechaEmision == req.fechaEmision
  {
    if !EsDoctor(caller) {
      return Forbidden403;
    }
    if id !in db.recetas {
      return NotFound404;
    }
    if !req.valid {
      return Unprocessable422;
    }
    var receta := db.recetas[id].(medicamentos := req.medicamentos, indicaciones := req.indicaciones,
                                  fechaEmision := req.fechaEmision);
    db.recetas := db.recetas[id := receta];
    r := Ok(receta);
  }
}
