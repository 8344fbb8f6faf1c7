/** Option, Outcome and Result: Java's nullable references and checked exceptions as values. */
module Wrappers {

  /** A Java reference the code checks for null. */
  datatype Option<+T> = None | Some(value: T) {
    function GetOr(default: T): T {
      match this
      case Some(v) => v
      case None => default
    }
  }

  /** A `void` method that either returns or throws. */
  datatype Outcome<+E> = Pass | Fail(error: E)

  /** A method that either returns a value or throws. */
  datatype Result<+T, +E> = Success(value: T) | Failure(error: E)
}

/** Calendar days and money. */
module Units {
  /** A `LocalDate`, as a number of days since an arbitrary epoch. */
  type Day = int

  /** A `BigDecimal` amount of money, in cents. */
  type Cents = int
}

/**
 * The failures the services report, one per reason for failing. Methods that
 * fail for the same reason with differently worded messages share a kind.
 */
module Errors {
  datatype Error =
    // ids
    | GuestIdNotPositive          // "El ID del huésped debe ser un número positivo"
    | RoomIdNotPositive           // "El ID de la habitación debe ser un número positivo"
    | ReservationIdNotPositive    // "El ID de la reserva debe ser un número positivo"
    // reservation input
    | DatesRequired               // "Las fechas de check-in y check-out son obligatorias"
    | CheckInAfterCheckOut        // "La fecha de check-in debe ser anterior a la de check-out"
    | CheckInInPast               // "La fecha de check-in no puede ser en el pasado"
    | GuestCountOutOfRange        // "El número de huéspedes debe estar entre 1 y 10"
    | InvalidDates                // "Las fechas no son válidas" / "Fechas inválidas"
    | InvalidNewDates             // "Las nuevas fechas no son válidas"
    // lookups
    | GuestNotFound
    | RoomNotFound
    | ReservationNotFound
    // business rules
    | InsufficientCapacity        // "La habitación no tiene capacidad ..."
    | RoomUnavailable             // "La habitación no está disponible ..."
    | NotActive                   // "Solo se pueden modificar reservas activas"
    | NotCancellable              // "Esta reserva no puede ser cancelada ..."
    | NightsNotPositive           // "El número de noches debe ser mayor a 0"
    // rooms
    | RoomNumberRequired
    | RoomTypeRequired
    | PriceBelowMinimum
    | DuplicateRoomNumber         // "Ya existe una habitación con este número"
    | RoomRequired                // "La habitación y su ID son obligatorios para actualizar"
    | RoomUpdateFailed            // the database rejects the update (room number taken)
    // guests
    | NameRequired
    | NameTooShort
    | InvalidEmail
    | InvalidPhone
    | EmailTaken                  // "Ya existe (otro) huésped ... con este email"
    | EmailRequired               // "El email no puede estar vacío"
    | GuestRequired               // "El huésped y su ID son obligatorios para actualizar"
}
