/** The states of a reservation. */
module ReservationStates {
  import opened Wrappers

  datatype EstadoReserva = ACTIVA | CANCELADA | COMPLETADA {

    function Nombre(): string {
      match this
      case ACTIVA => "Activa"
      case CANCELADA => "Cancelada"
      case COMPLETADA => "Completada"
    }

    function Descripcion(): string {
      match this
      case ACTIVA => "Reserva confirmada y vigente"
      case CANCELADA => "Reserva cancelada por el cliente o hotel"
      case COMPLETADA => "Estadía finalizada exitosamente"
    }

    /** `name()`: the string stored in the `estado` column. */
    function Name(): string {
      match this
      case ACTIVA => "ACTIVA"
      case CANCELADA => "CANCELADA"
      case COMPLETADA => "COMPLETADA"
    }
  }

  /** `EstadoReserva.valueOf`, which throws on an unknown name. */
  function ValueOf(s: string): (e: Option<EstadoReserva>)
    ensures e.Some? ==> e.value.Name() == s
  {
    if s == "ACTIVA" then Some(ACTIVA)
    else if s == "CANCELADA" then Some(CANCELADA)
    else if s == "COMPLETADA" then Some(COMPLETADA)
    else None
  }

  /** A state read back from its stored name is the same state. */
  lemma ValueOfName(e: EstadoReserva)
    ensures ValueOf(e.Name()) == Some(e)
  {
  }

  /** The three states have three different names, display names and descriptions. */
  lemma NamesDistinct(a: EstadoReserva, b: EstadoReserva)
    requires a != b
    ensures a.Name() != b.Name() && a.Nombre() != b.Nombre() && a.Descripcion() != b.Descripcion()
  {
  }
}
