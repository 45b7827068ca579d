/**
 * The persistent store the controllers read and write: the `users`,
 * `citas`, `recetas` and `bitacoras` tables as maps from primary key to
 * row, with their auto-increment counters, and the integrity the schema and
 * the controllers together keep.
 */
module Database {
  import opened Common
  import opened Users
  import opened CitaModel

  /** One row of the `recetas` table (app/Models/Receta.php). */
  datatype Receta = Receta(
    citaId: Id,
    alumnoId: Id,
    doctorId: Id,
    medicamentos: string,
    indicaciones: string,
    fechaEmision: Date)

  /** The seven nullable clinical columns of a visit log. */
  datatype Clinical = Clinical(
    diagnostico: Option<string>,
    tratamiento: Option<string>,
    observaciones: Option<string>,
    peso: Option<string>,
    altura: Option<string>,
    temperatura: Option<string>,
    presionArterial: Option<string>)

  /** The four clinical columns of `string` type fit them; the other three are `text`. */
  predicate ClinicalFits(c: Clinical)
  {
    && FitsStringColumn(c.peso)
    && FitsStringColumn(c.altura)
    && FitsStringColumn(c.temperatura)
    && FitsStringColumn(c.presionArterial)
  }

  /** One row of the `bitacoras` table (app/Models/Bitacora.php). */
  datatype Bitacora = Bitacora(
    citaId: Id,
    alumnoId: Id,
    doctorId: Id,
    clinical: Clinical,
    createdAt: Timestamp)

  /** The unique index on `clave_cita`. */
  ghost predicate UniqueClaves(citas: map<Id, Cita>)
  {
    forall i, j :: i in citas && j in citas && i != j ==> citas[i].claveCita != citas[j].claveCita
  }

  /** Every stored value of a `string` column fits it: a reason of an appointment, the short clinical fields of a log. */
  ghost predicate ColumnsFit(citas: map<Id, Cita>, bitacoras: map<Id, Bitacora>)
  {
    && (forall i :: i in citas ==> FitsStringColumn(citas[i].motivo))
    && (forall i :: i in bitacoras ==> ClinicalFits(bitacoras[i].clinical))
  }

  /** At most one prescription refers to any appointment. */
  ghost predicate OneRecetaPerCita(recetas: map<Id, Receta>)
  {
    forall i, j :: i in recetas && j in recetas && i != j ==> recetas[i].citaId != recetas[j].citaId
  }

  /**
   * Every prescription refers to an existing appointment (foreign key) and
   * carries the student of that appointment.
   */
  ghost predicate RecetasLinked(recetas: map<Id, Receta>, citas: map<Id, Cita>)
  {
    forall i :: i in recetas ==> recetas[i].citaId in citas && citas[recetas[i].citaId].alumnoId == recetas[i].alumnoId
  }

  /** Every visit log refers to an existing appointment and carries its student. */
  ghost predicate BitacorasLinked(bitacoras: map<Id, Bitacora>, citas: map<Id, Cita>)
  {
    forall i :: i in bitacoras ==> bitacoras[i].citaId in citas && citas[bitacoras[i].citaId].alumnoId == bitacoras[i].alumnoId
  }

  /** `b` keeps the booking of `a`: key, student, date, time, reason and notes. */
  predicate SameBooking(a: Cita, b: Cita)
  {
    && a.claveCita == b.claveCita
    && a.alumnoId == b.alumnoId
    && a.fechaCita == b.fechaCita
    && a.horaCita == b.horaCita
    && a.motivo == b.motivo
    && a.notas == b.notas
  }

  /** Every row of `citas` keeps its booking in `next`, and no row disappears. */
  ghost predicate BookingsKept(citas: map<Id, Cita>, next: map<Id, Cita>)
  {
    citas.Keys <= next.Keys && forall k :: k in citas ==> SameBooking(citas[k], next[k])
  }

  /** Status changes keep every booking, so the links and key uniqueness survive them. */
  lemma BookingsKeptPreservesIntegrity(citas: map<Id, Cita>, next: map<Id, Cita>,
                                       recetas: map<Id, Receta>, bitacoras: map<Id, Bitacora>)
    requires BookingsKept(citas, next) && next.Keys == citas.Keys
    requires UniqueClaves(citas) && RecetasLinked(recetas, citas) && BitacorasLinked(bitacoras, citas)
    ensures UniqueClaves(next) && RecetasLinked(recetas, next) && BitacorasLinked(bitacoras, next)
  {
  }

  /** Inserting an appointment under a new id with a key no row holds keeps keys unique and every link intact. */
  lemma InsertFreshCitaKeepsIntegrity(citas: map<Id, Cita>, id: Id, c: Cita,
                                      recetas: map<Id, Receta>, bitacoras: map<Id, Bitacora>)
    requires id !in citas && !Taken(citas, c.claveCita)
    requires UniqueClaves(citas) && RecetasLinked(recetas, citas) && BitacorasLinked(bitacoras, citas)
    ensures UniqueClaves(citas[id := c]) && RecetasLinked(recetas, citas[id := c]) && BitacorasLinked(bitacoras, citas[id := c])
  {
  }

  class Db {
    var users: map<Id, User>
    var citas: map<Id, Cita>
    var recetas: map<Id, Receta>
    var bitacoras: map<Id, Bitacora>
    /** The next value of each table's auto-increment id. */
    var nextCita: Id
    var nextReceta: Id
    var nextBitacora: Id

    ghost predicate Valid()
      reads this
    {
      && (forall id :: id in citas ==> id < nextCita)
      && (forall id :: id in recetas ==> id < nextReceta)
      && (forall id :: id in bitacoras ==> id < nextBitacora)
      && UniqueClaves(citas)
      && OneRecetaPerCita(recetas)
      && RecetasLinked(recetas, citas)
      && BitacorasLinked(bitacoras, citas)
      && ColumnsFit(citas, bitacoras)
    }

    /** A store holding the given users and no appointments, prescriptions or logs. */
    constructor (users: map<Id, User>)
      ensures Valid()
      ensures this.users == users
      ensures citas == map[] && recetas == map[] && bitacoras == map[]
    {
      this.users := users;
      citas, recetas, bitacoras := map[], map[], map[];
      nextCita, nextReceta, nextBitacora := 1, 1, 1;
    }
  }
}
