/** The authenticated user of the API and its two role predicates (app/Models/User.php). */
module Users {
  import opened Common

  /**
   * The fields of a user row that the controllers read. `tipo` is a free
   * string column (default "alumno"); `numeroControl` is the student number,
   * not unique in the table.
   */
  datatype User = User(id: Id, tipo: string, numeroControl: Option<string>)

  /** `esAlumno`: strict comparison of `tipo` with "alumno". */
  predicate EsAlumno(u: User)
  {
    u.tipo == "alumno"
  }

  /** `esDoctor`: strict comparison of `tipo` with "doctor". */
  predicate EsDoctor(u: User)
  {
    u.tipo == "doctor"
  }

  /** Each predicate holds exactly for its own `tipo` value, and never both at once. */
  lemma RoleClassification(u: User)
    ensures EsAlumno(u) <==> u.tipo == "alumno"
    ensures EsDoctor(u) <==> u.tipo == "doctor"
    ensures !(EsAlumno(u) && EsDoctor(u))
  {
  }

  /**
   * A user whose `tipo` is anything else is neither a student nor a doctor,
   * so every controller branch written `if esAlumno … else …` treats that
   * user like a doctor, and every doctor-only action refuses that user.
   */
  lemma OtherTipoIsNeither(u: User)
    requires u.tipo != "alumno" && u.tipo != "doctor"
    ensures !EsAlumno(u) && !EsDoctor(u)
  {
  }
}
