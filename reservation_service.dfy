/**
 * `ReservationService`: creating, changing and cancelling reservations
 * over the `reservations` table, against the guest directory and the room
 * catalogue, and the invariant that keeps a room from being sold twice.
 */
module ReservationServices {
  import opened Wrappers
  import opened Units
  import opened Errors
  import opened ReservationStates
  import opened Rooms
  import opened Reservations
  import opened GuestServices
  import opened RoomServices
  import RoomDao
  import opened Guests

  /** No two different ACTIVA reservations of one room share a day (closed ranges). */
  predicate NoDoubleBooking(reservations: map<int, ReservationRow>) {
    forall a, b | && a in reservations && b in reservations && a != b
                  && reservations[a].estado == ACTIVA && reservations[b].estado == ACTIVA
                  && reservations[a].roomId == reservations[b].roomId ::
      !RoomDao.Intersect(reservations[a].checkIn, reservations[a].checkOut,
                         reservations[b].checkIn, reservations[b].checkOut)
  }

  /**
   * Writing `row` under `key` clashes with no other ACTIVA reservation of
   * its room: either `row` is not ACTIVA, or it shares no day with them.
   */
  predicate FitsAmong(reservations: map<int, ReservationRow>, key: int, row: ReservationRow) {
    forall b | && b in reservations && b != key
               && reservations[b].estado == ACTIVA && reservations[b].roomId == row.roomId ::
      row.estado != ACTIVA ||
      !RoomDao.Intersect(reservations[b].checkIn, reservations[b].checkOut, row.checkIn, row.checkOut)
  }

  /** Some room in `rows` has id `roomId` (`anyMatch(r -> r.getId().equals(roomId))`). */
  predicate AnyMatch(rows: seq<RoomRow>, roomId: int) {
    exists i | 0 <= i < |rows| :: rows[i].id == roomId
  }

  /**
   * What `createReservation` demands once the input is well formed: a
   * known guest, a known room large enough for the party, and that room
   * passing the availability query's WHERE clause for the dates.
   */
  predicate Bookable(guests: map<int, GuestRow>, rooms: map<int, RoomRow>, reservations: map<int, ReservationRow>,
                     guestId: int, roomId: int, checkIn: Day, checkOut: Day, numGuests: int)
  {
    && guestId in guests && roomId in rooms
    && numGuests <= rooms[roomId].capacidadMaxima
    && RoomDao.Qualifies(rooms[roomId], reservations, checkIn, checkOut, numGuests)
  }

  /**
   * The input checks of `createReservation`, in the source's order: guest
   * id, room id, both dates present, check-in not after check-out,
   * check-in not before `today`, and a party of 1 to 10. Equal dates pass.
   */
  function ValidateReservationInput(guestId: Option<int>, roomId: Option<int>, checkIn: Option<Day>,
                                    checkOut: Option<Day>, numGuests: Option<int>, today: Day): (o: Outcome<Error>)
    ensures o.Pass? <==> && guestId.Some? && guestId.value > 0
                         && roomId.Some? && roomId.value > 0
                         && checkIn.Some? && checkOut.Some?
                         && today <= checkIn.value <= checkOut.value
                         && numGuests.Some? && 1 <= numGuests.value <= MAX_HUESPEDES
    ensures guestId.None? || guestId.value <= 0 ==> o == Fail(GuestIdNotPositive)
    ensures (&& guestId.Some? && guestId.value > 0
             && (roomId.None? || roomId.value <= 0)) ==> o == Fail(RoomIdNotPositive)
    ensures (&& guestId.Some? && guestId.value > 0 && roomId.Some? && roomId.value > 0
             && (checkIn.None? || checkOut.None?)) ==> o == Fail(DatesRequired)
    ensures (&& guestId.Some? && guestId.value > 0 && roomId.Some? && roomId.value > 0
             && checkIn.Some? && checkOut.Some? && checkIn.value > checkOut.value) ==> o == Fail(CheckInAfterCheckOut)
    ensures (&& guestId.Some? && guestId.value > 0 && roomId.Some? && roomId.value > 0
             && checkIn.Some? && checkOut.Some? && checkIn.value <= checkOut.value
             && checkIn.value < today) ==> o == Fail(CheckInInPast)
    ensures (&& guestId.Some? && guestId.value > 0 && roomId.Some? && roomId.value > 0
             && checkIn.Some? && checkOut.Some? && today <= checkIn.value <= checkOut.value
             && (numGuests.None? || numGuests.value <= 0 || numGuests.value > MAX_HUESPEDES)) ==>
              o == Fail(GuestCountOutOfRange)
  {
    if guestId.None? || guestId.value <= 0 then Fail(GuestIdNotPositive)
    else if roomId.None? || roomId.value <= 0 then Fail(RoomIdNotPositive)
    else if checkIn.None? || checkOut.None? then Fail(DatesRequired)
    else if checkIn.value > checkOut.value then Fail(CheckInAfterCheckOut)
    else if checkIn.value < today then Fail(CheckInInPast)
    else if numGuests.None? || numGuests.value <= 0 || numGuests.value > MAX_HUESPEDES then Fail(GuestCountOutOfRange)
    else Pass
  }

  /**
   * The outcome of `updateReservation`'s checks on the ACTIVA row `stored`,
   * in the source's order: new dates (when both are given) reversed or in
   * the past, a party outside 1 to 10, the room missing from the
   * availability answer for the new dates, a new guest count the room cannot
   * hold, and finally a room that no longer exists when the total is priced.
   */
  function RebookCheck(rooms: map<int, RoomRow>, reservations: map<int, ReservationRow>, stored: ReservationRow,
                       newCheckIn: Option<Day>, newCheckOut: Option<Day>, newNumGuests: Option<int>, today: Day)
    : (o: Outcome<Error>)
    ensures o.Pass? <==>
              var dates := newCheckIn.Some? && newCheckOut.Some?;
              var n := newNumGuests.GetOr(stored.numeroHuespedes);
              && stored.roomId in rooms
              && (dates ==> && today <= newCheckIn.value <= newCheckOut.value && 1 <= n <= MAX_HUESPEDES
                            && RoomDao.Qualifies(rooms[stored.roomId], reservations,
                                                 newCheckIn.value, newCheckOut.value, n))
              && (newNumGuests.Some? ==> 1 <= n <= rooms[stored.roomId].capacidadMaxima)
  {
    var dates := newCheckIn.Some? && newCheckOut.Some?;
    var n := newNumGuests.GetOr(stored.numeroHuespedes);
    if dates && (newCheckIn.value > newCheckOut.value || newCheckIn.value < today) then Fail(InvalidNewDates)
    else if dates && (n <= 0 || n > MAX_HUESPEDES) then Fail(GuestCountOutOfRange)
    else if dates && !(stored.roomId in rooms && RoomDao.Qualifies(rooms[stored.roomId], reservations,
                                                                   newCheckIn.value, newCheckOut.value, n))
    then Fail(RoomUnavailable)
    else if newNumGuests.Some? && stored.roomId in rooms && !(1 <= n <= rooms[stored.roomId].capacidadMaxima)
    then Fail(InsufficientCapacity)
    else if stored.roomId !in rooms then Fail(RoomNotFound)
    else Pass
  }

  class ReservationService {
    const guestService: GuestService
    const roomService: RoomService
    /** The `reservations` table, by primary key. */
    var reservations: map<int, ReservationRow>
    /** The next AUTO_INCREMENT key; keys are never reused. */
    var nextId: int

    /**
     * Every key was handed out by the counter and is the row's own id,
     * every row names a positive guest and room and an ordered pair of
     * dates, and no room is double-booked.
     */
    ghost predicate Valid()
      reads this
    {
      && nextId > 0
      && (forall k | k in reservations ::
            && 0 < k < nextId && reservations[k].id == k
            && reservations[k].guestId > 0 && reservations[k].roomId > 0
            && reservations[k].checkIn <= reservations[k].checkOut)
      && NoDoubleBooking(reservations)
    }

    constructor (guestService: GuestService, roomService: RoomService)
      ensures Valid() && reservations == map[] && nextId == 1
      ensures this.guestService == guestService && this.roomService == roomService
    {
      this.guestService := guestService;
      this.roomService := roomService;
      reservations := map[];
      nextId := 1;
    }

    /**
     * The checks `createReservation` makes after its input checks, in the
     * source's order: unknown guest, unknown room, a party the room cannot
     * hold (`puedeAlojar`), and the room missing from the availability
     * query's answer for the dates.
     */
    method CheckBooking(guestId: int, roomId: int, checkIn: Day, checkOut: Day, numGuests: int, today: Day)
      returns (o: Outcome<Error>)
      requires roomService.Valid()
      requires guestId > 0 && roomId > 0 && today <= checkIn <= checkOut && 1 <= numGuests <= MAX_HUESPEDES
      ensures guestId !in guestService.guests ==> o == Fail(GuestNotFound)
      ensures guestId in guestService.guests && roomId !in roomService.rooms ==> o == Fail(RoomNotFound)
      ensures (&& guestId in guestService.guests && roomId in roomService.rooms
               && numGuests > roomService.rooms[roomId].capacidadMaxima) ==> o == Fail(InsufficientCapacity)
      ensures (&& guestId in guestService.guests && roomId in roomService.rooms
               && numGuests <= roomService.rooms[roomId].capacidadMaxima
               && !RoomDao.Qualifies(roomService.rooms[roomId], reservations, checkIn, checkOut, numGuests)) ==>
                o == Fail(RoomUnavailable)
      ensures o.Pass? <==> Bookable(guestService.guests, roomService.rooms, reservations,
                                    guestId, roomId, checkIn, checkOut, numGuests)
    {
      var guest := guestService.FindGuestById(Some(guestId));
      if guest.value.None? {
        return Fail(GuestNotFound);
      }
      var found := roomService.FindRoomById(Some(roomId));
      if found.value.None? {
        return Fail(RoomNotFound);
      }
      var room := new Room.FromRow(found.value.value);
      if !room.PuedeAlojar(numGuests) {
        return Fail(InsufficientCapacity);
      }
      var available := roomService.FindAvailableRooms(reservations, Some(checkIn), Some(checkOut), numGuests, today);
      AnyMatchIffQualifies(roomService.rooms, reservations, checkIn, checkOut, numGuests, roomId);
      if !AnyMatch(available.value, roomId) {
        return Fail(RoomUnavailable);
      }
      return Pass;
    }

    /**
     * Validates the input and checks the booking; then stores a new ACTIVA
     * reservation priced at the room's rate times the nights, under a
     * fresh key.
     */
    method CreateReservation(guestId: Option<int>, roomId: Option<int>, checkIn: Option<Day>,
                             checkOut: Option<Day>, numGuests: Option<int>, today: Day)
      returns (r: Result<ReservationRow, Error>)
      requires Valid() && roomService.Valid()
      modifies this
      ensures Valid()
      ensures ValidateReservationInput(guestId, roomId, checkIn, checkOut, numGuests, today).Fail? ==>
                r == Failure(ValidateReservationInput(guestId, roomId, checkIn, checkOut, numGuests, today).error)
      ensures ValidateReservationInput(guestId, roomId, checkIn, checkOut, numGuests, today).Pass? ==>
                var guests, rooms := guestService.guests, roomService.rooms;
                && (guestId.value !in guests ==> r == Failure(GuestNotFound))
                && (guestId.value in guests && roomId.value !in rooms ==> r == Failure(RoomNotFound))
                && ((&& guestId.value in guests && roomId.value in rooms
                     && numGuests.value > rooms[roomId.value].capacidadMaxima) ==> r == Failure(InsufficientCapacity))
                && ((&& guestId.value in guests && roomId.value in rooms
                     && numGuests.value <= rooms[roomId.value].capacidadMaxima
                     && !RoomDao.Qualifies(rooms[roomId.value], old(reservations), checkIn.value, checkOut.value,
                                           numGuests.value)) ==> r == Failure(RoomUnavailable))
      ensures r.Success? <==>
                && ValidateReservationInput(guestId, roomId, checkIn, checkOut, numGuests, today).Pass?
                && Bookable(guestService.guests, roomService.rooms, old(reservations),
                            guestId.value, roomId.value, checkIn.value, checkOut.value, numGuests.value)
      ensures r.Failure? ==> reservations == old(reservations) && nextId == old(nextId)
      ensures r.Success? ==>
                && r.value == ReservationRow(old(nextId), guestId.value, roomId.value, checkIn.value, checkOut.value,
                                             numGuests.value,
                                             roomService.rooms[roomId.value].precioPorNoche * (checkOut.value - checkIn.value),
                                             ACTIVA)
                && reservations == old(reservations)[old(nextId) := r.value]
                && nextId == old(nextId) + 1
    {
      var check := ValidateReservationInput(guestId, roomId, checkIn, checkOut, numGuests, today);
      if check.Fail? {
        return Failure(check.error);
      }
      var problem := CheckBooking(guestId.value, roomId.value, checkIn.value, checkOut.value, numGuests.value, today);
      if problem.Fail? {
        return Failure(problem.error);
      }
      var reservation := new Reservation.Create(guestId.value, roomId.value, checkIn.value, checkOut.value,
                                                numGuests.value);
      var total := roomService.CalculateTotalPrice(roomId, checkIn, checkOut);
      reservation.SetMontoTotal(Some(total.value));
      var row := reservation.Row(nextId);
      assert roomService.rooms[roomId.value].id == roomId.value;
      FreeRoomFits(reservations, nextId, row);
      PlacingKeepsNoDoubleBooking(reservations, nextId, row);
      reservation.SetId(Some(nextId));
      reservations := reservations[nextId := row];
      nextId := nextId + 1;
      return Success(row);
    }

    /** `findReservationById`: a null or non-positive id is refused; otherwise the row, if any. */
    function FindReservationById(id: Option<int>): (r: Result<Option<ReservationRow>, Error>)
      reads this
      ensures r.Failure? <==> id.None? || id.value <= 0
      ensures r.Failure? ==> r.error == ReservationIdNotPositive
      ensures r.Success? ==> (r.value.Some? <==> id.value in reservations)
      ensures r.Success? && r.value.Some? ==> r.value.value == reservations[id.value]
      ensures Valid() && r.Success? && r.value.Some? ==> r.value.value.id == id.value
    {
      if id.None? || id.value <= 0 then Failure(ReservationIdNotPositive)
      else if id.value in reservations then Success(Some(reservations[id.value]))
      else Success(None)
    }

    /** `findReservationsByGuest`: a null or non-positive id is refused; otherwise that guest's reservations. */
    function FindReservationsByGuest(guestId: Option<int>): (r: Result<set<ReservationRow>, Error>)
      reads this
      ensures r.Failure? <==> guestId.None? || guestId.value <= 0
      ensures r.Failure? ==> r.error == GuestIdNotPositive
      ensures r.Success? ==> forall k | k in reservations :: reservations[k] in r.value <==> reservations[k].guestId == guestId.value
      ensures r.Success? ==> forall x | x in r.value :: x in reservations.Values && x.guestId == guestId.value
    {
      if guestId.None? || guestId.value <= 0 then Failure(GuestIdNotPositive)
      else Success(set k | k in reservations && reservations[k].guestId == guestId.value :: reservations[k])
    }

    /** `findReservationsByRoom`: a null or non-positive id is refused; otherwise that room's reservations. */
    function FindReservationsByRoom(roomId: Option<int>): (r: Result<set<ReservationRow>, Error>)
      reads this
      ensures r.Failure? <==> roomId.None? || roomId.value <= 0
      ensures r.Failure? ==> r.error == RoomIdNotPositive
      ensures r.Success? ==> forall k | k in reservations :: reservations[k] in r.value <==> reservations[k].roomId == roomId.value
      ensures r.Success? ==> forall x | x in r.value :: x in reservations.Values && x.roomId == roomId.value
    {
      if roomId.None? || roomId.value <= 0 then Failure(RoomIdNotPositive)
      else Success(set k | k in reservations && reservations[k].roomId == roomId.value :: reservations[k])
    }

    /** `getActiveReservations`: the ACTIVA rows. */
    function GetActiveReservations(): (r: set<ReservationRow>)
      reads this
      ensures forall k | k in reservations :: reservations[k] in r <==> reservations[k].estado == ACTIVA
      ensures forall x | x in r :: x in reservations.Values && x.estado == ACTIVA
    {
      set k | k in reservations && reservations[k].estado == ACTIVA :: reservations[k]
    }

    /**
     * The checks `updateReservation` makes on a pair of new dates: ordered
     * and not in the past, then the room listed by the availability query
     * for a party of `numGuests`, which itself refuses a party outside
     * 1 to 10. The reservation being changed still counts against its room.
     */
    method CheckRebooking(roomId: int, newCheckIn: Day, newCheckOut: Day, numGuests: int, today: Day)
      returns (o: Outcome<Error>)
      requires roomService.Valid()
      ensures newCheckIn > newCheckOut || newCheckIn < today ==> o == Fail(InvalidNewDates)
      ensures today <= newCheckIn <= newCheckOut && (numGuests <= 0 || numGuests > MAX_HUESPEDES) ==>
                o == Fail(GuestCountOutOfRange)
      ensures (&& today <= newCheckIn <= newCheckOut && 1 <= numGuests <= MAX_HUESPEDES
               && !(roomId in roomService.rooms && RoomDao.Qualifies(roomService.rooms[roomId], reservations,
                                                                      newCheckIn, newCheckOut, numGuests))) ==>
                o == Fail(RoomUnavailable)
      ensures o.Pass? <==> && today <= newCheckIn <= newCheckOut && 1 <= numGuests <= MAX_HUESPEDES
                           && roomId in roomService.rooms
                           && RoomDao.Qualifies(roomService.rooms[roomId], reservations,
                                                newCheckIn, newCheckOut, numGuests)
    {
      if newCheckIn > newCheckOut || newCheckIn < today {
        return Fail(InvalidNewDates);
      }
      var available := roomService.FindAvailableRooms(reservations, Some(newCheckIn), Some(newCheckOut),
                                                      numGuests, today);
      if available.Failure? {
        return Fail(available.error);
      }
      AnyMatchIffQualifies(roomService.rooms, reservations, newCheckIn, newCheckOut, numGuests, roomId);
      if !AnyMatch(available.value, roomId) {
        return Fail(RoomUnavailable);
      }
      return Pass;
    }

    /** The capacity check of `updateReservation`: only made when the room still exists. */
    method CheckNewCount(roomId: int, numGuests: int) returns (o: Outcome<Error>)
      requires roomId > 0
      ensures o.Pass? <==> roomId !in roomService.rooms ||
                           1 <= numGuests <= roomService.rooms[roomId].capacidadMaxima
      ensures o.Fail? ==> o.error == InsufficientCapacity
    {
      var found := roomService.FindRoomById(Some(roomId));
      if found.value.Some? {
        var room := new Room.FromRow(found.value.value);
        if !room.PuedeAlojar(numGuests) {
          return Fail(InsufficientCapacity);
        }
      }
      return Pass;
    }

    /**
     * The part of `updateReservation` after the lookups, on the ACTIVA row
     * `stored`: new dates are taken only when both are given and pass
     * `CheckRebooking`, a new party size must pass `CheckNewCount`, and the
     * total is recomputed from the resulting dates and the room's current
     * rate, which also requires the room to still exist.
     */
    method Rebook(stored: ReservationRow, newCheckIn: Option<Day>, newCheckOut: Option<Day>,
                  newNumGuests: Option<int>, today: Day)
      returns (r: Result<ReservationRow, Error>)
      requires roomService.Valid()
      requires stored.roomId > 0 && stored.checkIn <= stored.checkOut
      ensures r.Failure? <==> RebookCheck(roomService.rooms, reservations, stored,
                                          newCheckIn, newCheckOut, newNumGuests, today).Fail?
      ensures r.Failure? ==> r.error == RebookCheck(roomService.rooms, reservations, stored,
                                                    newCheckIn, newCheckOut, newNumGuests, today).error
      ensures r.Success? ==>
                var dates := newCheckIn.Some? && newCheckOut.Some?;
                var checkIn := if dates then newCheckIn.value else stored.checkIn;
                var checkOut := if dates then newCheckOut.value else stored.checkOut;
                r.value == stored.(checkIn := checkIn, checkOut := checkOut,
                                   numeroHuespedes := newNumGuests.GetOr(stored.numeroHuespedes),
                                   montoTotal := roomService.rooms[stored.roomId].precioPorNoche * (checkOut - checkIn))
      ensures (&& r.Success? && (newCheckIn.None? || newCheckOut.None?)
               && stored.montoTotal == roomService.rooms[stored.roomId].precioPorNoche * (stored.checkOut - stored.checkIn))
                ==> r.value.montoTotal == stored.montoTotal
    {
      var reservation := new Reservation.FromRow(stored);
      if newCheckIn.Some? && newCheckOut.Some? {
        var n := if newNumGuests.Some? then newNumGuests.value else reservation.numeroHuespedes.value;
        var problem := CheckRebooking(reservation.roomId.value, newCheckIn.value, newCheckOut.value, n, today);
        if problem.Fail? {
          return Failure(problem.error);
        }
        reservation.SetFechaCheckIn(newCheckIn);
        reservation.SetFechaCheckOut(newCheckOut);
      }
      if newNumGuests.Some? {
        var problem := CheckNewCount(reservation.roomId.value, newNumGuests.value);
        if problem.Fail? {
          return Failure(problem.error);
        }
        reservation.SetNumeroHuespedes(newNumGuests);
      }
      var total := roomService.CalculateTotalPrice(reservation.roomId, reservation.fechaCheckIn,
                                                   reservation.fechaCheckOut);
      if total.Failure? {
        return Failure(total.error);
      }
      reservation.SetMontoTotal(Some(total.value));
      return Success(reservation.Written(stored));
    }

    /**
     * `updateReservation`: the reservation must exist and be ACTIVA; the
     * rest is `Rebook`. New dates sharing a day with the reservation's own
     * current ones are refused, since the reservation still books its room.
     */
    method UpdateReservation(reservationId: Option<int>, newCheckIn: Option<Day>, newCheckOut: Option<Day>,
                             newNumGuests: Option<int>, today: Day)
      returns (r: Result<ReservationRow, Error>)
      requires Valid() && roomService.Valid()
      modifies this
      ensures Valid() && nextId == old(nextId)
      ensures reservationId.None? || reservationId.value <= 0 ==> r == Failure(ReservationIdNotPositive)
      ensures reservationId.Some? && reservationId.value > 0 && reservationId.value !in old(reservations) ==>
                r == Failure(ReservationNotFound)
      ensures (&& reservationId.Some? && reservationId.value > 0 && reservationId.value in old(reservations)
               && old(reservations)[reservationId.value].estado != ACTIVA) ==> r == Failure(NotActive)
      ensures (&& reservationId.Some? && reservationId.value in old(reservations)
               && newCheckIn.Some? && newCheckOut.Some?
               && RoomDao.Intersect(old(reservations)[reservationId.value].checkIn,
                                    old(reservations)[reservationId.value].checkOut,
                                    newCheckIn.value, newCheckOut.value)) ==> r.Failure?
      ensures (&& reservationId.Some? && reservationId.value > 0 && reservationId.value in old(reservations)
               && old(reservations)[reservationId.value].estado == ACTIVA
               && newCheckIn.Some? && newCheckOut.Some?
               && (newCheckIn.value > newCheckOut.value || newCheckIn.value < today)) ==>
                r == Failure(InvalidNewDates)
      ensures (&& reservationId.Some? && reservationId.value > 0 && reservationId.value in old(reservations)
               && old(reservations)[reservationId.value].estado == ACTIVA) ==>
                var check := RebookCheck(roomService.rooms, old(reservations), old(reservations)[reservationId.value],
                                         newCheckIn, newCheckOut, newNumGuests, today);
                && (check.Fail? ==> r == Failure(check.error))
                && (check.Pass? ==> r.Success?)
      ensures r.Success? ==>
                var stored := old(reservations)[reservationId.value];
                var dates := newCheckIn.Some? && newCheckOut.Some?;
                var checkIn := if dates then newCheckIn.value else stored.checkIn;
                var checkOut := if dates then newCheckOut.value else stored.checkOut;
                && reservationId.Some? && reservationId.value in old(reservations)
                && r.value == stored.(checkIn := checkIn, checkOut := checkOut,
                                      numeroHuespedes := newNumGuests.GetOr(stored.numeroHuespedes),
                                      montoTotal := roomService.rooms[stored.roomId].precioPorNoche * (checkOut - checkIn))
      ensures r.Failure? ==> reservations == old(reservations)
      ensures r.Success? ==>
                && reservationId.Some? && reservationId.value in old(reservations)
                && old(reservations)[reservationId.value].estado == ACTIVA
                && r.value.id == reservationId.value
                && reservations == old(reservations)[reservationId.value := r.value]
    {
      var existing := FindReservationById(reservationId);
      if existing.Failure? {
        return Failure(existing.error);
      }
      if existing.value.None? {
        return Failure(ReservationNotFound);
      }
      var key := reservationId.value;
      var stored := existing.value.value;
      if stored.estado != ACTIVA {
        return Failure(NotActive);
      }
      if newCheckIn.Some? && newCheckOut.Some? &&
         RoomDao.Intersect(stored.checkIn, stored.checkOut, newCheckIn.value, newCheckOut.value) &&
         stored.roomId in roomService.rooms {
        SelfOverlapRejected(roomService.rooms, reservations, key, newCheckIn.value, newCheckOut.value,
                            newNumGuests.GetOr(stored.numeroHuespedes));
      }
      r := Rebook(stored, newCheckIn, newCheckOut, newNumGuests, today);
      if r.Failure? {
        return;
      }
      if newCheckIn.Some? && newCheckOut.Some? {
        assert roomService.rooms[r.value.roomId].id == r.value.roomId;
        FreeRoomFits(reservations, key, r.value);
      } else {
        UnchangedFits(reservations, key, r.value);
      }
      PlacingKeepsNoDoubleBooking(reservations, key, r.value);
      reservations := reservations[key := r.value];
    }

    /**
     * `cancelReservation`: the reservation must exist and be cancellable
     * (ACTIVA, check-in after `today`); it becomes CANCELADA and nothing
     * else about it changes.
     */
    method CancelReservation(reservationId: Option<int>, today: Day) returns (r: Result<bool, Error>)
      requires Valid()
      modifies this
      ensures Valid() && nextId == old(nextId)
      ensures reservationId.None? || reservationId.value <= 0 ==> r == Failure(ReservationIdNotPositive)
      ensures reservationId.Some? && reservationId.value > 0 && reservationId.value !in old(reservations) ==>
                r == Failure(ReservationNotFound)
      ensures r.Success? <==> && reservationId.Some? && reservationId.value > 0
                              && reservationId.value in old(reservations)
                              && old(reservations)[reservationId.value].estado == ACTIVA
                              && today < old(reservations)[reservationId.value].checkIn
      ensures (&& reservationId.Some? && reservationId.value > 0 && reservationId.value in old(reservations)
               && r.Failure?) ==> r == Failure(NotCancellable)
      ensures r.Failure? ==> reservations == old(reservations)
      ensures r.Success? ==>
                && r.value
                && reservations == old(reservations)[reservationId.value :=
                                    old(reservations)[reservationId.value].(estado := CANCELADA)]
    {
      var existing := FindReservationById(reservationId);
      if existing.Failure? {
        return Failure(existing.error);
      }
      if existing.value.None? {
        return Failure(ReservationNotFound);
      }
      var key := reservationId.value;
      var stored := existing.value.value;
      var reservation := new Reservation.FromRow(stored);
      if !reservation.PuedeSerCancelada(today) {
        return Failure(NotCancellable);
      }
      reservation.SetEstado(CANCELADA);
      var row := reservation.Written(stored);
      PlacingKeepsNoDoubleBooking(reservations, key, row);
      reservations := reservations[key := row];
      return Success(true);
    }
  }

  /**
   * In a keyed rooms table, the room `roomId` is among the rows the
   * availability query returns exactly when it is stored and passes the
   * query's WHERE clause.
   */
  lemma {:induction false} AnyMatchIffQualifies(rooms: map<int, RoomRow>, reservations: map<int, ReservationRow>,
                                                checkIn: Day, checkOut: Day, numGuests: int, roomId: int)
    requires forall k | k in rooms :: rooms[k].id == k
    ensures AnyMatch(RoomDao.FindAvailableRooms(rooms, reservations, checkIn, checkOut, numGuests), roomId)
            <==> roomId in rooms && RoomDao.Qualifies(rooms[roomId], reservations, checkIn, checkOut, numGuests)
  {
    var rows := RoomDao.FindAvailableRooms(rooms, reservations, checkIn, checkOut, numGuests);
    if AnyMatch(rows, roomId) {
      var i :| 0 <= i < |rows| && rows[i].id == roomId;
      assert rows[i] in rooms.Values;
      var k :| k in rooms && rooms[k] == rows[i];
      assert k == roomId;
    }
    if roomId in rooms && RoomDao.Qualifies(rooms[roomId], reservations, checkIn, checkOut, numGuests) {
      assert rooms[roomId] in rows;
      var i :| 0 <= i < |rows| && rows[i] == rooms[roomId];
      assert rows[i].id == roomId;
    }
  }

  /** An ACTIVA reservation whose own dates share a day with the request books its room for it. */
  lemma SelfOverlapBlocks(reservations: map<int, ReservationRow>, key: int, checkIn: Day, checkOut: Day)
    requires key in reservations && reservations[key].estado == ACTIVA
    requires RoomDao.Intersect(reservations[key].checkIn, reservations[key].checkOut, checkIn, checkOut)
    ensures RoomDao.IsBooked(reservations, reservations[key].roomId, checkIn, checkOut)
  {
    RoomDao.IntersectionClashes(reservations[key].checkIn, reservations[key].checkOut, checkIn, checkOut);
    assert RoomDao.Blocks(reservations[key], reservations[key].roomId, checkIn, checkOut);
  }

  /** A row for a room the availability sub-query does not list for its dates fits among the others. */
  lemma FreeRoomFits(reservations: map<int, ReservationRow>, key: int, row: ReservationRow)
    requires !RoomDao.IsBooked(reservations, row.roomId, row.checkIn, row.checkOut)
    ensures FitsAmong(reservations, key, row)
  {
    RoomDao.NotBookedMeansFree(reservations, row.roomId, row.checkIn, row.checkOut);
  }

  /** Rewriting a reservation with its room, dates and ACTIVA state kept fits among the others. */
  lemma UnchangedFits(reservations: map<int, ReservationRow>, key: int, row: ReservationRow)
    requires NoDoubleBooking(reservations) && key in reservations
    requires row.roomId == reservations[key].roomId
    requires row.checkIn == reservations[key].checkIn && row.checkOut == reservations[key].checkOut
    requires row.estado == ACTIVA ==> reservations[key].estado == ACTIVA
    ensures FitsAmong(reservations, key, row)
  {
  }

  /** Writing a row that fits among the others keeps every room free of double bookings. */
  lemma {:induction false} PlacingKeepsNoDoubleBooking(reservations: map<int, ReservationRow>, key: int,
                                                       row: ReservationRow)
    requires NoDoubleBooking(reservations) && FitsAmong(reservations, key, row)
    ensures NoDoubleBooking(reservations[key := row])
  {
    var after := reservations[key := row];
    forall a, b | && a in after && b in after && a != b
                  && after[a].estado == ACTIVA && after[b].estado == ACTIVA
                  && after[a].roomId == after[b].roomId
      ensures !RoomDao.Intersect(after[a].checkIn, after[a].checkOut, after[b].checkIn, after[b].checkOut)
    {
      if a == key {
        assert after[b] == reservations[b];
      } else if b == key {
        assert after[a] == reservations[a];
      } else {
        assert after[a] == reservations[a] && after[b] == reservations[b];
      }
    }
  }

  /** In a consistent store the ACTIVA reservations of one room never share a day. */
  lemma {:induction false} ActiveReservationsDisjoint(service: ReservationService, x: ReservationRow, y: ReservationRow)
    requires service.Valid()
    requires x in service.GetActiveReservations() && y in service.GetActiveReservations()
    requires x != y && x.roomId == y.roomId
    ensures !RoomDao.Intersect(x.checkIn, x.checkOut, y.checkIn, y.checkOut)
  {
    var a :| a in service.reservations && service.reservations[a] == x;
    var b :| b in service.reservations && service.reservations[b] == y;
  }

  /** A stay that checks out on the day it checks in is accepted by the input checks and costs nothing. */
  lemma ZeroNightStay(service: RoomService, roomId: int, day: Day, today: Day, guestId: int, numGuests: int)
    requires roomId > 0 && roomId in service.rooms && guestId > 0 && today <= day
    requires 1 <= numGuests <= MAX_HUESPEDES
    ensures ValidateReservationInput(Some(guestId), Some(roomId), Some(day), Some(day), Some(numGuests), today).Pass?
    ensures service.CalculateTotalPrice(Some(roomId), Some(day), Some(day)) == Success(0)
  {
  }

  /**
   * New dates that share a day with the reservation's own current dates
   * are refused: the reservation itself still books its room, so the room
   * fails the availability query's WHERE clause.
   */
  lemma SelfOverlapRejected(rooms: map<int, RoomRow>, reservations: map<int, ReservationRow>, key: int,
                            newCheckIn: Day, newCheckOut: Day, numGuests: int)
    requires key in reservations && reservations[key].estado == ACTIVA
    requires reservations[key].roomId in rooms && rooms[reservations[key].roomId].id == reservations[key].roomId
    requires RoomDao.Intersect(reservations[key].checkIn, reservations[key].checkOut, newCheckIn, newCheckOut)
    ensures !RoomDao.Qualifies(rooms[reservations[key].roomId], reservations, newCheckIn, newCheckOut, numGuests)
  {
    SelfOverlapBlocks(reservations, key, newCheckIn, newCheckOut);
  }
}
