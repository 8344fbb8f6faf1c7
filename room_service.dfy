/**
 * `RoomService`: the room catalogue over the `rooms` table, its guard
 * chains, the availability search and the price of a stay.
 */
module RoomServices {
  import opened Wrappers
  import opened Units
  import opened Errors
  import opened RoomTypes
  import opened JavaStrings
  import opened Rooms
  import opened Reservations
  import RoomDao

  /** `PRECIO_MINIMO`, 50.00 in cents. */
  const PRECIO_MINIMO: Cents := 5000

  /** The largest party the availability search accepts. */
  const MAX_HUESPEDES: int := 10

  /** The `numero` column is UNIQUE. */
  predicate NumbersUnique(rooms: map<int, RoomRow>) {
    forall a, b | a in rooms && b in rooms && rooms[a].numero == rooms[b].numero :: a == b
  }

  /** Some row other than the one under `key` already has room number `numero`. */
  predicate NumberTakenByOther(rooms: map<int, RoomRow>, numero: string, key: int) {
    exists k | k in rooms :: k != key && rooms[k].numero == numero
  }

  /**
   * The validations of `createRoom`, in the order the source makes them:
   * a number that is null or blank once trimmed, a null type, a price that
   * is null or below the minimum.
   */
  function CreateRoomCheck(numero: Option<string>, tipo: Option<TipoHabitacion>,
                           precioPorNoche: Option<Cents>): (o: Outcome<Error>)
    ensures o.Pass? <==> && numero.Some? && Trim(numero.value) != []
                         && tipo.Some?
                         && precioPorNoche.Some? && precioPorNoche.value >= PRECIO_MINIMO
    ensures (numero.None? || Trim(numero.value) == []) ==> o == Fail(RoomNumberRequired)
    ensures numero.Some? && Trim(numero.value) != [] && tipo.None? ==> o == Fail(RoomTypeRequired)
    ensures (&& numero.Some? && Trim(numero.value) != [] && tipo.Some?
             && (precioPorNoche.None? || precioPorNoche.value < PRECIO_MINIMO)) ==> o == Fail(PriceBelowMinimum)
  {
    if numero.None? || Trim(numero.value) == [] then Fail(RoomNumberRequired)
    else if tipo.None? then Fail(RoomTypeRequired)
    else if precioPorNoche.None? || precioPorNoche.value < PRECIO_MINIMO then Fail(PriceBelowMinimum)
    else Pass
  }

  class RoomService {
    /** The `rooms` table, by primary key. */
    var rooms: map<int, RoomRow>
    /** The next AUTO_INCREMENT key; keys are never reused. */
    var nextId: int

    /**
     * Every key was handed out by the counter and is the row's own id,
     * room numbers are unique, and every stored price is at least the
     * minimum (both writers check it).
     */
    ghost predicate Valid()
      reads this
    {
      && nextId > 0
      && (forall k | k in rooms :: 0 < k < nextId && rooms[k].id == k)
      && NumbersUnique(rooms)
      && (forall k | k in rooms :: rooms[k].precioPorNoche >= PRECIO_MINIMO)
    }

    constructor ()
      ensures Valid() && rooms == map[] && nextId == 1
    {
      rooms := map[];
      nextId := 1;
    }

    /**
     * Validates, builds the room (trimmed number, capacity of its type,
     * switched on) and inserts it under a fresh key; a number already in
     * use is refused and nothing is written.
     */
    method CreateRoom(numero: Option<string>, tipo: Option<TipoHabitacion>, precioPorNoche: Option<Cents>)
      returns (r: Result<RoomRow, Error>)
      requires Valid()
      modifies this
      ensures Valid()
      ensures CreateRoomCheck(numero, tipo, precioPorNoche).Fail? ==>
                r == Failure(CreateRoomCheck(numero, tipo, precioPorNoche).error)
      ensures (&& CreateRoomCheck(numero, tipo, precioPorNoche).Pass?
               && NumberTakenByOther(old(rooms), Trim(numero.value), old(nextId))) ==>
                r == Failure(DuplicateRoomNumber)
      ensures r.Success? <==> CreateRoomCheck(numero, tipo, precioPorNoche).Pass? &&
                              !NumberTakenByOther(old(rooms), Trim(numero.value), old(nextId))
      ensures r.Failure? ==> rooms == old(rooms) && nextId == old(nextId)
      ensures r.Success? ==>
                && CreateRoomCheck(numero, tipo, precioPorNoche).Pass?
                && r.value == RoomRow(old(nextId), Trim(numero.value), tipo.value, precioPorNoche.value,
                                      tipo.value.CapacidadMaxima(), true)
                && rooms == old(rooms)[old(nextId) := r.value]
                && nextId == old(nextId) + 1
    {
      var check := CreateRoomCheck(numero, tipo, precioPorNoche);
      if check.Fail? {
        return Failure(check.error);
      }
      var room := new Room.Create(Trim(numero.value), tipo.value, precioPorNoche.value);
      if exists k | k in rooms :: rooms[k].numero == room.numero.value {
        return Failure(DuplicateRoomNumber);
      }
      var row := room.Row(nextId);
      room.SetId(Some(nextId));
      rooms := rooms[nextId := row];
      nextId := nextId + 1;
      return Success(row);
    }

    /** `findRoomById`: a null or non-positive id is refused; otherwise the row, if any. */
    function FindRoomById(id: Option<int>): (r: Result<Option<RoomRow>, Error>)
      reads this
      ensures r.Failure? <==> id.None? || id.value <= 0
      ensures r.Failure? ==> r.error == RoomIdNotPositive
      ensures r.Success? ==> (r.value.Some? <==> id.value in rooms)
      ensures r.Success? && r.value.Some? ==> r.value.value == rooms[id.value]
      ensures Valid() && r.Success? && r.value.Some? ==> r.value.value.id == id.value
    {
      if id.None? || id.value <= 0 then Failure(RoomIdNotPositive)
      else if id.value in rooms then Success(Some(rooms[id.value]))
      else Success(None)
    }

    /**
     * `findAvailableRooms`: dates must be present, ordered and not in the
     * past, and the party between 1 and 10; then the availability query
     * over this table and the reservations table.
     */
    function FindAvailableRooms(reservations: map<int, ReservationRow>, checkIn: Option<Day>,
                                checkOut: Option<Day>, numGuests: int, today: Day): (r: Result<seq<RoomRow>, Error>)
      reads this
      ensures checkIn.None? || checkOut.None? ==> r == Failure(DatesRequired)
      ensures (&& checkIn.Some? && checkOut.Some?
               && (checkIn.value > checkOut.value || checkIn.value < today)) ==> r == Failure(InvalidDates)
      ensures (&& checkIn.Some? && checkOut.Some? && today <= checkIn.value <= checkOut.value
               && (numGuests <= 0 || numGuests > MAX_HUESPEDES)) ==> r == Failure(GuestCountOutOfRange)
      ensures r.Success? <==> && checkIn.Some? && checkOut.Some?
                              && today <= checkIn.value <= checkOut.value
                              && 1 <= numGuests <= MAX_HUESPEDES
      ensures r.Success? ==> forall i | 0 <= i < |r.value| ::
                && r.value[i] in rooms.Values
                && RoomDao.Qualifies(r.value[i], reservations, checkIn.value, checkOut.value, numGuests)
      ensures r.Success? ==> forall k | k in rooms &&
                RoomDao.Qualifies(rooms[k], reservations, checkIn.value, checkOut.value, numGuests) ::
                  rooms[k] in r.value
      ensures r.Success? ==> forall i, j | 0 <= i < j < |r.value| ::
                r.value[i].precioPorNoche <= r.value[j].precioPorNoche
    {
      if checkIn.None? || checkOut.None? then Failure(DatesRequired)
      else if checkIn.value > checkOut.value || checkIn.value < today then Failure(InvalidDates)
      else if numGuests <= 0 || numGuests > MAX_HUESPEDES then Failure(GuestCountOutOfRange)
      else Success(RoomDao.FindAvailableRooms(rooms, reservations, checkIn.value, checkOut.value, numGuests))
    }

    /**
     * `updateRoom`: the room and its id are required, the id must name a
     * stored row and the price must reach the minimum; the UPDATE itself
     * fails when the number is null or belongs to another room.
     * A null price on a stored room, or a null type or capacity on a room
     * that passed the checks, would be dereferenced by the source.
     */
    method UpdateRoom(room: Room?) returns (r: Result<RoomRow, Error>)
      requires Valid()
      requires room != null && room.id.Some? && room.id.value in rooms ==> room.precioPorNoche.Some?
      requires room != null && room.id.Some? && room.id.value in rooms &&
               room.precioPorNoche.Some? && room.precioPorNoche.value >= PRECIO_MINIMO ==>
                 room.tipo.Some? && room.capacidadMaxima.Some?
      modifies this
      ensures Valid() && nextId == old(nextId)
      ensures room == null || room.id.None? ==> r == Failure(RoomRequired)
      ensures room != null && room.id.Some? && room.id.value <= 0 ==> r == Failure(RoomIdNotPositive)
      ensures room != null && room.id.Some? && room.id.value > 0 && room.id.value !in old(rooms) ==>
                r == Failure(RoomNotFound)
      ensures (&& room != null && room.id.Some? && room.id.value > 0 && room.id.value in old(rooms)
               && room.precioPorNoche.value < PRECIO_MINIMO) ==> r == Failure(PriceBelowMinimum)
      ensures (&& room != null && room.id.Some? && room.id.value > 0 && room.id.value in old(rooms)
               && room.precioPorNoche.value >= PRECIO_MINIMO
               && (room.numero.None? || NumberTakenByOther(old(rooms), room.numero.value, room.id.value))) ==>
                r == Failure(RoomUpdateFailed)
      ensures r.Success? <==>
                && room != null && room.id.Some? && room.id.value > 0 && room.id.value in old(rooms)
                && room.precioPorNoche.value >= PRECIO_MINIMO
                && room.numero.Some? && !NumberTakenByOther(old(rooms), room.numero.value, room.id.value)
      ensures r.Failure? ==> rooms == old(rooms)
      ensures r.Success? ==>
                && room != null && room.id.Some? && room.id.value in old(rooms)
                && room.numero.Some? && !NumberTakenByOther(old(rooms), room.numero.value, room.id.value)
                && r.value == room.Row(room.id.value)
                && rooms == old(rooms)[room.id.value := r.value]
    {
      if room == null || room.id.None? {
        return Failure(RoomRequired);
      }
      var existing := FindRoomById(room.id);
      if existing.Failure? {
        return Failure(existing.error);
      }
      if existing.value.None? {
        return Failure(RoomNotFound);
      }
      if room.precioPorNoche.value < PRECIO_MINIMO {
        return Failure(PriceBelowMinimum);
      }
      var key := room.id.value;
      if room.numero.None? || exists k | k in rooms :: k != key && rooms[k].numero == room.numero.value {
        return Failure(RoomUpdateFailed);
      }
      var row := room.Row(key);
      rooms := rooms[key := row];
      return Success(row);
    }

    /** `deleteRoom`: a non-positive or unknown id is refused; otherwise the row is removed. */
    method DeleteRoom(id: Option<int>) returns (r: Result<bool, Error>)
      requires Valid()
      modifies this
      ensures Valid() && nextId == old(nextId)
      ensures id.None? || id.value <= 0 ==> r == Failure(RoomIdNotPositive)
      ensures id.Some? && id.value > 0 && id.value !in old(rooms) ==> r == Failure(RoomNotFound)
      ensures r.Success? <==> id.Some? && id.value > 0 && id.value in old(rooms)
      ensures r.Failure? ==> rooms == old(rooms)
      ensures r.Success? ==> r.value && id.Some? && id.value in old(rooms) && rooms == old(rooms) - {id.value}
    {
      var existing := FindRoomById(id);
      if existing.Failure? {
        return Failure(existing.error);
      }
      if existing.value.None? {
        return Failure(RoomNotFound);
      }
      rooms := rooms - {id.value};
      return Success(true);
    }

    /**
     * `calculateTotalPrice`: the room must exist and the dates be present
     * and ordered; the price is the nightly rate times the nights between
     * them, so a stay that starts and ends on the same day costs nothing.
     */
    function CalculateTotalPrice(roomId: Option<int>, checkIn: Option<Day>, checkOut: Option<Day>)
      : (r: Result<Cents, Error>)
      reads this
      ensures roomId.None? || roomId.value <= 0 ==> r == Failure(RoomIdNotPositive)
      ensures roomId.Some? && roomId.value > 0 && roomId.value !in rooms ==> r == Failure(RoomNotFound)
      ensures (&& roomId.Some? && roomId.value > 0 && roomId.value in rooms
               && (checkIn.None? || checkOut.None? || checkIn.value > checkOut.value)) ==> r == Failure(InvalidDates)
      ensures r.Success? ==>
                && roomId.Some? && roomId.value in rooms
                && checkIn.Some? && checkOut.Some? && checkIn.value <= checkOut.value
                && r.value == rooms[roomId.value].precioPorNoche * (checkOut.value - checkIn.value)
      ensures r.Success? <==> && roomId.Some? && roomId.value > 0 && roomId.value in rooms
                              && checkIn.Some? && checkOut.Some? && checkIn.value <= checkOut.value
      ensures Valid() && r.Success? ==> r.value >= 0
    {
      var room := FindRoomById(roomId);
      if room.Failure? then Failure(room.error)
      else if room.value.None? then Failure(RoomNotFound)
      else if checkIn.None? || checkOut.None? || checkIn.value > checkOut.value then Failure(InvalidDates)
      else Success(room.value.value.precioPorNoche * (checkOut.value - checkIn.value))
    }
  }

  /** For a stay of at least one night the service's price is the entity's `calcularPrecioTotal`. */
  lemma TotalPriceMatchesRoom(service: RoomService, room: Room, roomId: int, checkIn: Day, checkOut: Day)
    requires roomId > 0 && roomId in service.rooms && checkIn < checkOut
    requires room.precioPorNoche == Some(service.rooms[roomId].precioPorNoche)
    ensures service.CalculateTotalPrice(Some(roomId), Some(checkIn), Some(checkOut))
         == room.CalcularPrecioTotal(checkOut - checkIn)
  {
  }

  /** Splitting a stay at any day in between splits its price. */
  lemma {:induction false} TotalPriceAdditive(service: RoomService, roomId: int, a: Day, b: Day, c: Day)
    requires roomId > 0 && roomId in service.rooms && a <= b <= c
    ensures service.CalculateTotalPrice(Some(roomId), Some(a), Some(c)).value
         == service.CalculateTotalPrice(Some(roomId), Some(a), Some(b)).value
          + service.CalculateTotalPrice(Some(roomId), Some(b), Some(c)).value
  {
    var p := service.rooms[roomId].precioPorNoche;
    assert p * (c - a) == p * (b - a) + p * (c - b);
  }
}
