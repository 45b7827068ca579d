/**
 * The appointments screen of the client (FrontEnd/src/app/componentes/citas/citas.ts):
 * which buttons it offers, how it books, and how it patches its list when
 * the server answers.
 *
 * Each handler is split where the source suspends: the method named after
 * the handler does the synchronous part and returns what it sends; the
 * method ending in `Answered` runs the subscription's `next` or `error`
 * callback and then its `finalize`.
 */
module CitasComponent {
  import opened Common
  import opened Users
  import opened CitaModel
  import CitaController

  /** The fields of an appointment as the client receives them (`CitaSummary`). */
  datatype CitaSummary = CitaSummary(
    id: Id,
    claveCita: string,
    fechaCita: string,
    horaCita: string,
    motivo: Option<string>,
    estatus: string)

  /** `puedeCancelar`: the status is neither `cancelada` nor `atendida` and the role is `alumno`. */
  predicate PuedeCancelar(c: CitaSummary, rol: Option<string>)
  {
    c.estatus != "cancelada" && c.estatus != "atendida" && rol == Some("alumno")
  }

  /** `puedeAtender`: the status is `programada` and the role is `doctor`. */
  predicate PuedeAtender(c: CitaSummary, rol: Option<string>)
  {
    c.estatus == "programada" && rol == Some("doctor")
  }

  /**
   * The two buttons never show together; for a status the server sends,
   * each button shows exactly for a `programada` appointment and its role.
   */
  lemma ButtonsExclusive(c: CitaSummary, rol: Option<string>)
    ensures !(PuedeCancelar(c, rol) && PuedeAtender(c, rol))
    ensures forall e: Estatus :: c.estatus == EstatusName(e) ==>
      (PuedeCancelar(c, rol) <==> e == Programada && rol == Some("alumno"))
      && (PuedeAtender(c, rol) <==> e == Programada && rol == Some("doctor"))
  {
  }

  /**
   * The cancel button mirrors the server: when it shows to a student for
   * one of that student's appointments, the server's cancel succeeds.
   */
  lemma CancelButtonMirrorsServer(citas: map<Id, Cita>, student: User, id: Id, c: CitaSummary)
    requires id in citas && citas[id].alumnoId == student.id
    requires c.estatus == EstatusName(citas[id].estatus)
    requires PuedeCancelar(c, Some(student.tipo))
    ensures CitaController.CancelStep(citas, student, id).response.Ok?
  {
  }

  /** The attend button mirrors the server: when it shows to a doctor, the server's attend succeeds and moves `programada` to `atendida`. */
  lemma AttendButtonMirrorsServer(citas: map<Id, Cita>, doctor: User, id: Id, now: Timestamp, c: CitaSummary)
    requires id in citas
    requires c.estatus == EstatusName(citas[id].estatus)
    requires PuedeAtender(c, Some(doctor.tipo))
    ensures citas[id].estatus == Programada
    ensures CitaController.AttendStep(citas, doctor, id, now).response.Ok?
    ensures CitaController.AttendStep(citas, doctor, id, now).citas[id].estatus == Atendida
  {
  }

  /** `citas.map(item => item.id === id ? updated : item)`. */
  function ReplaceById(list: seq<CitaSummary>, id: Id, updated: CitaSummary): (r: seq<CitaSummary>)
  {
    seq(|list|, i requires 0 <= i < |list| => if list[i].id == id then updated else list[i])
  }

  /** No two items of the list share an id. */
  predicate DistinctIds(list: seq<CitaSummary>)
  {
    forall i, j :: 0 <= i < j < |list| ==> list[i].id != list[j].id
  }

  /**
   * With distinct ids, replacing by id is a point update at the item's
   * position: the length and every other item stay, and the ids stay
   * distinct when the server echoes the same id.
   */
  lemma ReplaceIsPointUpdate(list: seq<CitaSummary>, k: nat, updated: CitaSummary)
    requires k < |list| && DistinctIds(list)
    ensures ReplaceById(list, list[k].id, updated) == list[k := updated]
    ensures updated.id == list[k].id ==> DistinctIds(ReplaceById(list, list[k].id, updated))
  {
    var r := ReplaceById(list, list[k].id, updated);
    assert forall i :: 0 <= i < |list| ==> r[i] == list[k := updated][i];
  }

  /** Replacing an id the list does not hold changes nothing. */
  lemma ReplaceAbsentIsIdentity(list: seq<CitaSummary>, id: Id, updated: CitaSummary)
    requires forall i :: 0 <= i < |list| ==> list[i].id != id
    ensures ReplaceById(list, id, updated) == list
  {
  }

  /** The booking form. */
  datatype Formulario = Formulario(fechaCita: string, horaCita: string, motivo: string)

  const EmptyForm := Formulario("", "", "")

  /** What `crearCita` sends: `motivo || undefined`, so an empty reason is left out. */
  datatype CitaPayload = CitaPayload(fechaCita: string, horaCita: string, motivo: Option<string>)

  /** A server answer to a request: the message and the appointment, or the error's `message` field if any. */
  datatype Reply = Success(message: string, cita: CitaSummary) | Failure(serverMessage: Option<string>)

  /** `err?.error?.message || fallback`. */
  function ErrorText(serverMessage: Option<string>, fallback: string): (t: string)
    ensures Filled(serverMessage) ==> t == serverMessage.value
    ensures !Filled(serverMessage) ==> t == fallback
  {
    if Filled(serverMessage) then serverMessage.value else fallback
  }

  const MissingDateTime := "Selecciona la fecha y hora de la cita."
  const LoadFailed := "No fue posible cargar las citas."
  const CreateFailed := "No fue posible agendar la cita."
  const CancelFailed := "No fue posible cancelar la cita."
  const AttendFailed := "No fue posible marcar la cita como atendida."

  class Citas {
    var citas: seq<CitaSummary>
    var cargando: bool
    var error: string
    var mensaje: string
    var creando: bool
    var cancelandoId: Option<Id>
    var formulario: Formulario

    constructor ()
      ensures citas == [] && !cargando && error == "" && mensaje == ""
      ensures !creando && cancelandoId == None && formulario == EmptyForm
    {
      citas := [];
      cargando := false;
      error := "";
      mensaje := "";
      creando := false;
      cancelandoId := None;
      formulario := EmptyForm;
    }

    /** `cargarCitas`, synchronous part: show the spinner and clear both banners. */
    method CargarCitas()
      modifies this`cargando, this`error, this`mensaje
      ensures cargando && error == "" && mensaje == ""
    {
      cargando := true;
      error := "";
      mensaje := "";
    }

    /** The answer to `listarCitas`: the list is replaced on success, an error shown on failure; the spinner stops. */
    method CargarCitasAnswered(reply: Option<seq<CitaSummary>>)
      modifies this`citas, this`error, this`cargando
      ensures !cargando
      ensures reply.Some? ==> citas == reply.value && error == old(error)
      ensures reply.None? ==> citas == old(citas) && error == LoadFailed
    {
      if reply.Some? {
        citas := reply.value;
      } else {
        error := LoadFailed;
      }
      cargando := false;
    }

    /**
     * `agendarCita`, synchronous part. With an empty date or time it only
     * sets the error and sends nothing, so `creando` keeps its value.
     * Otherwise it raises `creando`, clears both banners and sends the
     * form, with an empty reason left out.
     */
    method AgendarCita() returns (sent: Option<CitaPayload>)
      modifies this`creando, this`error, this`mensaje
      ensures formulario.fechaCita == "" || formulario.horaCita == "" ==>
        sent == None && error == MissingDateTime && creando == old(creando) && mensaje == old(mensaje)
      ensures formulario.fechaCita != "" && formulario.horaCita != "" ==>
        && sent == Some(CitaPayload(formulario.fechaCita, formulario.horaCita,
                                    if formulario.motivo == "" then None else Some(formulario.motivo)))
        && creando && error == "" && mensaje == ""
    {
      if formulario.fechaCita == "" || formulario.horaCita == "" {
        error := MissingDateTime;
        return None;
      }
      creando := true;
      error := "";
      mensaje := "";
      var motivo := if formulario.motivo == "" then None else Some(formulario.motivo);
      sent := Some(CitaPayload(formulario.fechaCita, formulario.horaCita, motivo));
    }

    /**
     * The answer to `crearCita`. On success the message shows, the form is
     * reset and the new appointment goes in front of the list, which
     * otherwise keeps its order; on failure the server's message (or a
     * fallback) shows and the list stays. Either way `creando` drops.
     */
    method AgendarCitaAnswered(reply: Reply)
      modifies this`citas, this`error, this`mensaje, this`formulario, this`creando
      ensures !creando
      ensures reply.Success? ==>
        && mensaje == reply.message && formulario == EmptyForm
        && citas == [reply.cita] + old(citas) && error == old(error)
      ensures reply.Failure? ==>
        && error == ErrorText(reply.serverMessage, CreateFailed)
        && citas == old(citas) && mensaje == old(mensaje) && formulario == old(formulario)
    {
      if reply.Success? {
        mensaje := reply.message;
        formulario := EmptyForm;
        citas := [reply.cita] + citas;
      } else {
        error := ErrorText(reply.serverMessage, CreateFailed);
      }
      creando := false;
    }

    /** `cancelarCita`, synchronous part: mark the row busy, clear both banners, send its id. */
    method CancelarCita(c: CitaSummary) returns (sent: Id)
      modifies this`cancelandoId, this`error, this`mensaje
      ensures sent == c.id && cancelandoId == Some(c.id) && error == "" && mensaje == ""
    {
      cancelandoId := Some(c.id);
      error := "";
      mensaje := "";
      sent := c.id;
    }

    /**
     * The answer to `cancelarCita` for the row with id `target`: on success
     * only items with that id are replaced by the server's copy; on failure
     * the list stays and an error shows. Either way no row is busy.
     */
    method CancelarCitaAnswered(target: Id, reply: Reply)
      modifies this`citas, this`error, this`mensaje, this`cancelandoId
      ensures cancelandoId == None
      ensures reply.Success? ==>
        mensaje == reply.message && citas == ReplaceById(old(citas), target, reply.cita) && error == old(error)
      ensures reply.Failure? ==>
        error == ErrorText(reply.serverMessage, CancelFailed) && citas == old(citas) && mensaje == old(mensaje)
    {
      if reply.Success? {
        mensaje := reply.message;
        citas := ReplaceById(citas, target, reply.cita);
      } else {
        error := ErrorText(reply.serverMessage, CancelFailed);
      }
      cancelandoId := None;
    }

    /** `atenderCita`, synchronous part: mark the row busy, clear both banners, send its id. */
    method AtenderCita(c: CitaSummary) returns (sent: Id)
      modifies this`cancelandoId, this`error, this`mensaje
      ensures sent == c.id && cancelandoId == Some(c.id) && error == "" && mensaje == ""
    {
      cancelandoId := Some(c.id);
      error := "";
      mensaje := "";
      sent := c.id;
    }

    /** The answer to `atenderCita` for the row with id `target`, handled like a cancel answer. */
    method AtenderCitaAnswered(target: Id, reply: Reply)
      modifies this`citas, this`error, this`mensaje, this`cancelandoId
      ensures cancelandoId == None
      ensures reply.Success? ==>
        mensaje == reply.message && citas == ReplaceById(old(citas), target, reply.cita) && error == old(error)
      ensures reply.Failure? ==>
        error == ErrorText(reply.serverMessage, AttendFailed) && citas == old(citas) && mensaje == old(mensaje)
    {
      if reply.Success? {
        mensaje := reply.message;
        citas := ReplaceById(citas, target, reply.cita);
      } else {
        error := ErrorText(reply.serverMessage, AttendFailed);
      }
      cancelandoId := None;
    }
  }
}
