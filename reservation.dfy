/** The `Reservation` entity and the row the `reservations` table keeps for it. */
module Reservations {
  import opened Wrappers
  import opened Units
  import opened ReservationStates

  /** A row of the `reservations` table as the services write it: every column set. */
  datatype ReservationRow = ReservationRow(
    id: int,
    guestId: int,
    roomId: int,
    checkIn: Day,
    checkOut: Day,
    numeroHuespedes: int,
    montoTotal: Cents,
    estado: EstadoReserva)

  /**
   * A reservation as the services handle it. Reference fields may be null;
   * the state is never set to null by any caller, so it is a plain value.
   * Each setter may write its own field and no other (its `modifies` frame).
   */
  class Reservation {
    var id: Option<int>
    var guestId: Option<int>
    var roomId: Option<int>
    var fechaCheckIn: Option<Day>
    var fechaCheckOut: Option<Day>
    var numeroHuespedes: Option<int>
    var montoTotal: Option<Cents>
    var estado: EstadoReserva

    /** A new reservation starts ACTIVA. */
    constructor ()
      ensures estado == ACTIVA
      ensures id == None && guestId == None && roomId == None
      ensures fechaCheckIn == None && fechaCheckOut == None
      ensures numeroHuespedes == None && montoTotal == None
    {
      id, guestId, roomId := None, None, None;
      fechaCheckIn, fechaCheckOut := None, None;
      numeroHuespedes, montoTotal := None, None;
      estado := ACTIVA;
    }

    /** A new ACTIVA reservation holding the five values given, unchanged. */
    constructor Create(guestId: int, roomId: int, checkIn: Day, checkOut: Day, numeroHuespedes: int)
      ensures estado == ACTIVA && id == None && montoTotal == None
      ensures this.guestId == Some(guestId) && this.roomId == Some(roomId)
      ensures fechaCheckIn == Some(checkIn) && fechaCheckOut == Some(checkOut)
      ensures this.numeroHuespedes == Some(numeroHuespedes)
    {
      id, montoTotal := None, None;
      estado := ACTIVA;
      this.guestId := Some(guestId);
      this.roomId := Some(roomId);
      fechaCheckIn := Some(checkIn);
      fechaCheckOut := Some(checkOut);
      this.numeroHuespedes := Some(numeroHuespedes);
    }

    /** A reservation read back from its row (`mapResultSetToReservation`). */
    constructor FromRow(row: ReservationRow)
      ensures id == Some(row.id) && guestId == Some(row.guestId) && roomId == Some(row.roomId)
      ensures fechaCheckIn == Some(row.checkIn) && fechaCheckOut == Some(row.checkOut)
      ensures numeroHuespedes == Some(row.numeroHuespedes) && montoTotal == Some(row.montoTotal)
      ensures estado == row.estado
    {
      id := Some(row.id);
      guestId := Some(row.guestId);
      roomId := Some(row.roomId);
      fechaCheckIn := Some(row.checkIn);
      fechaCheckOut := Some(row.checkOut);
      numeroHuespedes := Some(row.numeroHuespedes);
      montoTotal := Some(row.montoTotal);
      estado := row.estado;
    }

    /** The nights between the two dates: check-in plus that many days is check-out. */
    function CalcularDuracionNoches(): (noches: int)
      reads this
      ensures fechaCheckIn.Some? && fechaCheckOut.Some? ==>
                fechaCheckIn.value + noches == fechaCheckOut.value
      ensures fechaCheckIn.None? || fechaCheckOut.None? ==> noches == 0
    {
      if fechaCheckIn.Some? && fechaCheckOut.Some? then fechaCheckOut.value - fechaCheckIn.value
      else 0
    }

    /** Both dates set, check-in not before `today`, and at least one night. */
    predicate ValidarFechas(today: Day)
      reads this
      ensures ValidarFechas(today) <==>
                fechaCheckIn.Some? && fechaCheckOut.Some? &&
                today <= fechaCheckIn.value < fechaCheckOut.value
      ensures ValidarFechas(today) ==> CalcularDuracionNoches() >= 1
    {
      && fechaCheckIn.Some? && fechaCheckOut.Some?
      && fechaCheckIn.value > today - 1
      && fechaCheckOut.value > fechaCheckIn.value
    }

    /** Sets the total to the nightly price times the nights, or leaves it when the price or the dates do not qualify. */
    method CalcularMontoTotal(precioPorNoche: Option<Cents>, today: Day)
      modifies this`montoTotal
      ensures precioPorNoche.Some? && ValidarFechas(today) ==>
                montoTotal == Some(precioPorNoche.value * CalcularDuracionNoches())
      ensures !(precioPorNoche.Some? && ValidarFechas(today)) ==> montoTotal == old(montoTotal)
    {
      if precioPorNoche.Some? && ValidarFechas(today) {
        var noches := CalcularDuracionNoches();
        montoTotal := Some(precioPorNoche.value * noches);
      }
    }

    /**
     * Only an ACTIVA reservation whose check-in is strictly after `today`
     * can be cancelled. An ACTIVA reservation must have a check-in date
     * (the source would dereference a null date).
     */
    predicate PuedeSerCancelada(today: Day)
      reads this
      requires estado == ACTIVA ==> fechaCheckIn.Some?
      ensures PuedeSerCancelada(today) <==> estado == ACTIVA && today < fechaCheckIn.value
    {
      estado == ACTIVA && fechaCheckIn.value > today
    }

    /** The row after ReservationDao's UPDATE: dates, guest count, total and state come from this object. */
    function Written(row: ReservationRow): (r: ReservationRow)
      reads this
      requires fechaCheckIn.Some? && fechaCheckOut.Some? && numeroHuespedes.Some? && montoTotal.Some?
      ensures r.id == row.id && r.guestId == row.guestId && r.roomId == row.roomId
      ensures Some(r.checkIn) == fechaCheckIn && Some(r.checkOut) == fechaCheckOut
      ensures Some(r.numeroHuespedes) == numeroHuespedes && Some(r.montoTotal) == montoTotal
      ensures r.estado == estado
    {
      row.(checkIn := fechaCheckIn.value, checkOut := fechaCheckOut.value,
           numeroHuespedes := numeroHuespedes.value, montoTotal := montoTotal.value,
           estado := estado)
    }

    /** The row ReservationDao's INSERT writes for this reservation under key `key`. */
    function Row(key: int): (r: ReservationRow)
      reads this
      requires guestId.Some? && roomId.Some? && fechaCheckIn.Some? && fechaCheckOut.Some?
      requires numeroHuespedes.Some? && montoTotal.Some?
      ensures r.id == key && Some(r.guestId) == guestId && Some(r.roomId) == roomId
      ensures Some(r.checkIn) == fechaCheckIn && Some(r.checkOut) == fechaCheckOut
      ensures Some(r.numeroHuespedes) == numeroHuespedes && Some(r.montoTotal) == montoTotal
      ensures r.estado == estado
    {
      ReservationRow(key, guestId.value, roomId.value, fechaCheckIn.value, fechaCheckOut.value,
                     numeroHuespedes.value, montoTotal.value, estado)
    }

    method SetId(id: Option<int>)
      modifies this`id
      ensures this.id == id
    {
      this.id := id;
    }

    method SetGuestId(guestId: Option<int>)
      modifies this`guestId
      ensures this.guestId == guestId
    {
      this.guestId := guestId;
    }

    method SetRoomId(roomId: Option<int>)
      modifies this`roomId
      ensures this.roomId == roomId
    {
      this.roomId := roomId;
    }

    method SetFechaCheckIn(fechaCheckIn: Option<Day>)
      modifies this`fechaCheckIn
      ensures this.fechaCheckIn == fechaCheckIn
    {
      this.fechaCheckIn := fechaCheckIn;
    }

    method SetFechaCheckOut(fechaCheckOut: Option<Day>)
      modifies this`fechaCheckOut
      ensures this.fechaCheckOut == fechaCheckOut
    {
      this.fechaCheckOut := fechaCheckOut;
    }

    method SetNumeroHuespedes(numeroHuespedes: Option<int>)
      modifies this`numeroHuespedes
      ensures this.numeroHuespedes == numeroHuespedes
    {
      this.numeroHuespedes := numeroHuespedes;
    }

    method SetMontoTotal(montoTotal: Option<Cents>)
      modifies this`montoTotal
      ensures this.montoTotal == montoTotal
    {
      this.montoTotal := montoTotal;
    }

    method SetEstado(estado: EstadoReserva)
      modifies this`estado
      ensures this.estado == estado
    {
      this.estado := estado;
    }
  }
}
