/** The room types and the guest counts each one admits. */
module RoomTypes {
  import opened Wrappers

  datatype TipoHabitacion = SIMPLE | DOBLE | SUITE {

    function Descripcion(): string {
      match this
      case SIMPLE => "Simple"
      case DOBLE => "Doble"
      case SUITE => "Suite"
    }

    function CapacidadMinima(): int {
      match this
      case SIMPLE => 1
      case DOBLE => 2
      case SUITE => 2
    }

    function CapacidadMaxima(): int {
      match this
      case SIMPLE => 2
      case DOBLE => 4
      case SUITE => 6
    }

    /** `name()`: the string stored in the `tipo` column. */
    function Name(): string {
      match this
      case SIMPLE => "SIMPLE"
      case DOBLE => "DOBLE"
      case SUITE => "SUITE"
    }
  }

  /** `TipoHabitacion.valueOf`, which throws on an unknown name. */
  function ValueOf(s: string): (t: Option<TipoHabitacion>)
    ensures t.Some? ==> t.value.Name() == s
  {
    if s == "SIMPLE" then Some(SIMPLE)
    else if s == "DOBLE" then Some(DOBLE)
    else if s == "SUITE" then Some(SUITE)
    else None
  }

  /** Every type admits at least one guest and its range is not empty. */
  lemma CapacityRange(t: TipoHabitacion)
    ensures 0 < t.CapacidadMinima() <= t.CapacidadMaxima()
  {
  }

  /** A type read back from its stored name is the same type. */
  lemma ValueOfName(t: TipoHabitacion)
    ensures ValueOf(t.Name()) == Some(t)
  {
  }
}
