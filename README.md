# Hotel booking engine — a Dafny model

This project models the core of a small Java hotel booking engine:

- the entities `Room`, `Reservation` and `Guest`;
- the enumerations `TipoHabitacion` (room types with guest ranges) and `EstadoReserva` (reservation states);
- the room-availability query of `RoomDao.findAvailableRooms`;
- the three services on top of them: `RoomService`, `GuestService` and `ReservationService`.

The database tables become maps from primary key to an immutable row, plus an AUTO_INCREMENT counter that each service keeps. The entities are classes with nullable (`Option`) fields. Each entity has setters that may change only their own field. A service reads a row into a fresh entity object, changes it through the setters, and writes the row back, as the Java code does through its DAOs.

Conventions:

- Dates are day numbers (`Units.Day`).
- Today's date is a parameter wherever the Java code calls `LocalDate.now()`.
- `String.length()` counts UTF-16 code units (`JavaStrings.Utf16Length`): a character outside the Basic Multilingual Plane counts two.
- Money is an integer number of cents (`Units.Cents`), so the minimum nightly rate of 50.00 is `PRECIO_MINIMO = 5000`.
- A thrown `ServiceException` becomes a `Failure` or `Fail` carrying an `Errors.Error` kind. A kind names the reason for the failure; where two methods fail for the same reason with differently worded messages (for example invalid dates in `findAvailableRooms` and `calculateTotalPrice`, or an e-mail already in use on create and on update), they share one kind.
- A `NullPointerException` the Java code would raise becomes a precondition.

Files, in dependency order:

- `wrappers.dfy`: `Option`, `Outcome`, `Result`, the units and the error kinds.
- `java_strings.dfy`: `String.trim` and `String.length`.
- `tipo_habitacion.dfy`, `estado_reserva.dfy`: the two enumerations.
- `room.dfy`, `reservation.dfy`, `guest.dfy`: the entities and their rows.
- `room_dao.dfy`: the availability query.
- `room_service.dfy`, `guest_service.dfy`, `reservation_service.dfy`: the services.

The central invariant is `ReservationServices.NoDoubleBooking`: no two ACTIVA reservations of one room share a day. It is part of `ReservationService.Valid()`, and creating, updating and cancelling each preserve it.

The availability query excludes a room when an ACTIVA reservation of it meets any of three tests:

- its check-in lies between the requested dates, or
- its check-out lies between them, or
- it spans the whole request.

All three comparisons are inclusive (SQL `BETWEEN`, `<=` and `>=`). For ordered ranges this is the closed-interval intersection `RoomDao.Intersect`, so a stay that checks out on the day another checks in conflicts with it. There is no same-day turnover; the model keeps the query as written and proves the closed-interval reading (`RoomDao.ClashIsClosedIntersection`, `RoomDao.SameDayTurnoverClashes`).

Two other behaviours of the code are kept as written:

- A stay whose check-out equals its check-in passes every input check and costs 0 (`ReservationServices.ZeroNightStay`).
- When `updateReservation` re-checks availability, the reservation being changed still counts against its own room. New dates that share a day with its current dates are therefore always refused (`ReservationServices.SelfOverlapRejected`).

## Model

| member | source | states |
|---|---|---|
| JavaStrings.Trim | src/main/java/com/example/gestion_hotel/service/RoomService.java:24 | the result is the text between the leading and the trailing characters up to U+0020: everything before it and everything after it is such a character, and it neither starts nor ends with one; it is empty exactly when every character is such a character |
| JavaStrings.TrimIdempotent | src/main/java/com/example/gestion_hotel/service/RoomService.java:36 | trimming an already trimmed numero changes nothing |
| JavaStrings.Utf16Length | src/main/java/com/example/gestion_hotel/service/GuestService.java:24 | a single character has length 1, or 2 when it lies outside the Basic Multilingual Plane; the length lies between the character count and twice it, and equals the character count exactly when no character lies outside the plane |
| JavaStrings.Utf16LengthConcat | src/main/java/com/example/gestion_hotel/service/GuestService.java:24 | the length of a concatenation is the sum of the lengths, so with the one-character case every character contributes its own one or two code units |
| JavaStrings.AstralCharacterLength | src/main/java/com/example/gestion_hotel/service/GuestService.java:24 | a single character outside the Basic Multilingual Plane is kept by `trim()` and has length 2, so it is long enough for a name |
| RoomTypes.CapacityRange | src/main/java/com/example/gestion_hotel/entity/TipoHabitacion.java:4-20 | every room type admits at least one guest and its minimum is at most its maximum |
| RoomTypes.TipoHabitacion.Descripcion | src/main/java/com/example/gestion_hotel/entity/TipoHabitacion.java:4-18 | the display names "Simple", "Doble", "Suite" |
| RoomTypes.TipoHabitacion.CapacidadMinima | src/main/java/com/example/gestion_hotel/entity/TipoHabitacion.java:4-19 | the minimum guests 1, 2, 2 (bounded by `CapacityRange`) |
| RoomTypes.TipoHabitacion.CapacidadMaxima | src/main/java/com/example/gestion_hotel/entity/TipoHabitacion.java:4-20 | the maximum guests 2, 4, 6 (bounded by `CapacityRange`) |
| RoomTypes.TipoHabitacion.Name | src/main/java/com/example/gestion_hotel/dao/RoomDao.java:27 | `name()`, the constant's identifier as stored (round-trips by `ValueOfName`) |
| RoomTypes.ValueOf | src/main/java/com/example/gestion_hotel/dao/RoomDao.java:152 | a stored type string is read back only as the type with that name |
| RoomTypes.ValueOfName | src/main/java/com/example/gestion_hotel/dao/RoomDao.java:27 | the type name written to the rooms table reads back as the same type |
| ReservationStates.ValueOf | src/main/java/com/example/gestion_hotel/dao/ReservationDao.java:165 | a stored state string is read back only as the state with that name |
| ReservationStates.ValueOfName | src/main/java/com/example/gestion_hotel/dao/ReservationDao.java:31 | the state name written to the reservations table reads back as the same state |
| ReservationStates.NamesDistinct | src/main/java/com/example/gestion_hotel/entity/EstadoReserva.java:4-17 | the three states have pairwise different names, display names and descriptions |
| ReservationStates.EstadoReserva.Nombre | src/main/java/com/example/gestion_hotel/entity/EstadoReserva.java:4-16 | the display names "Activa", "Cancelada", "Completada" (distinct by `NamesDistinct`) |
| ReservationStates.EstadoReserva.Descripcion | src/main/java/com/example/gestion_hotel/entity/EstadoReserva.java:4-17 | the fixed description of each state (distinct by `NamesDistinct`) |
| ReservationStates.EstadoReserva.Name | src/main/java/com/example/gestion_hotel/dao/ReservationDao.java:31 | `name()`, the constant's identifier as stored (round-trips by `ValueOfName`) |
| Rooms.Room.constructor | src/main/java/com/example/gestion_hotel/entity/Room.java:13-15 | a new room is available and has every other field null |
| Rooms.Room.Create | src/main/java/com/example/gestion_hotel/entity/Room.java:17-23 | the three-argument constructor keeps numero, type and price and takes the capacity from the type's maximum |
| Rooms.Room.FromRow | src/main/java/com/example/gestion_hotel/dao/RoomDao.java:148-158 | a room read from a row holds exactly that row's columns |
| Rooms.Room.Row | src/main/java/com/example/gestion_hotel/dao/RoomDao.java:20-46 | the row written for a room under a key holds the room's fields unchanged |
| Rooms.Room.CalcularPrecioTotal | src/main/java/com/example/gestion_hotel/entity/Room.java:25-30 | fails exactly when the nights are not positive; otherwise the price is rate times nights |
| Rooms.Room.PuedeAlojar | src/main/java/com/example/gestion_hotel/entity/Room.java:32-34 | holds exactly when the guest count is between 1 and the room's capacity |
| Rooms.Room.IsAvailable | src/main/java/com/example/gestion_hotel/entity/Room.java:36-38 | the `disponible` flag, which is never null in the model (set by `SetDisponible`) |
| Rooms.Room.SetDisponible | src/main/java/com/example/gestion_hotel/entity/Room.java:36-42 | afterwards `isAvailable` answers the flag just set; no other field changes |
| Rooms.Room.SetId | src/main/java/com/example/gestion_hotel/entity/Room.java:45 | sets the id and nothing else |
| Rooms.Room.SetNumero | src/main/java/com/example/gestion_hotel/entity/Room.java:48 | sets the number and nothing else |
| Rooms.Room.SetTipo | src/main/java/com/example/gestion_hotel/entity/Room.java:51-56 | sets the type; a non-null type also resets the capacity to its maximum, a null type leaves the capacity alone |
| Rooms.Room.SetPrecioPorNoche | src/main/java/com/example/gestion_hotel/entity/Room.java:59-61 | sets the rate and nothing else |
| Rooms.Room.SetCapacidadMaxima | src/main/java/com/example/gestion_hotel/entity/Room.java:64-66 | overrides the capacity without touching the type |
| Rooms.TypeCapacityAdmitsTypeRange | src/main/java/com/example/gestion_hotel/entity/Room.java:17-34 | a room whose capacity came from its type can host every guest count the type allows |
| Rooms.PriceAdditive | src/main/java/com/example/gestion_hotel/entity/Room.java:25-30 | pricing two blocks of nights separately costs the same as pricing them together |
| Reservations.Reservation.constructor | src/main/java/com/example/gestion_hotel/entity/Reservation.java:19-22 | a new reservation is ACTIVA with every other field null |
| Reservations.Reservation.Create | src/main/java/com/example/gestion_hotel/entity/Reservation.java:24-32 | the five-argument constructor is ACTIVA and keeps guest, room, both dates and guest count unchanged |
| Reservations.Reservation.FromRow | src/main/java/com/example/gestion_hotel/dao/ReservationDao.java:147-173 | a reservation read from a row holds exactly that row's columns |
| Reservations.Reservation.Row | src/main/java/com/example/gestion_hotel/dao/ReservationDao.java:19-48 | the row inserted under a key holds the reservation's fields unchanged |
| Reservations.Reservation.Written | src/main/java/com/example/gestion_hotel/dao/ReservationDao.java:115-134 | the UPDATE keeps id, guest and room of the stored row and takes dates, guest count, total and state from the object |
| Reservations.Reservation.CalcularDuracionNoches | src/main/java/com/example/gestion_hotel/entity/Reservation.java:34-39 | check-in plus the nights is check-out (negative when reversed); 0 when a date is missing |
| Reservations.Reservation.ValidarFechas | src/main/java/com/example/gestion_hotel/entity/Reservation.java:41-48 | holds exactly when both dates are set, check-in is not before today and check-out is after check-in; then there is at least one night |
| Reservations.Reservation.CalcularMontoTotal | src/main/java/com/example/gestion_hotel/entity/Reservation.java:50-55 | with a rate and valid dates the total becomes rate times nights; otherwise the total is unchanged |
| Reservations.Reservation.PuedeSerCancelada | src/main/java/com/example/gestion_hotel/entity/Reservation.java:57-60 | holds exactly when the reservation is ACTIVA and check-in is strictly after today |
| Reservations.Reservation.SetId | src/main/java/com/example/gestion_hotel/entity/Reservation.java:63 | sets the id and nothing else |
| Reservations.Reservation.SetGuestId | src/main/java/com/example/gestion_hotel/entity/Reservation.java:66 | sets the guest and nothing else |
| Reservations.Reservation.SetRoomId | src/main/java/com/example/gestion_hotel/entity/Reservation.java:69 | sets the room and nothing else |
| Reservations.Reservation.SetFechaCheckIn | src/main/java/com/example/gestion_hotel/entity/Reservation.java:72-74 | sets check-in and nothing else |
| Reservations.Reservation.SetFechaCheckOut | src/main/java/com/example/gestion_hotel/entity/Reservation.java:77-79 | sets check-out and nothing else |
| Reservations.Reservation.SetNumeroHuespedes | src/main/java/com/example/gestion_hotel/entity/Reservation.java:82-84 | sets the guest count and nothing else |
| Reservations.Reservation.SetMontoTotal | src/main/java/com/example/gestion_hotel/entity/Reservation.java:87 | sets the total and nothing else |
| Reservations.Reservation.SetEstado | src/main/java/com/example/gestion_hotel/entity/Reservation.java:90 | sets the state and nothing else |
| Guests.EmailPatternCharacterization | src/main/java/com/example/gestion_hotel/entity/Guest.java:13-15 | an e-mail matches exactly when it has one '@', a non-empty local part over the allowed characters, a domain over the allowed characters with text before its last '.', and at least two ASCII letters after that '.' |
| Guests.PhoneRejectsSeparators | src/main/java/com/example/gestion_hotel/entity/Guest.java:32-34 | a phone with a character other than a digit anywhere but a leading '+' is rejected |
| Guests.MatchesEmailPattern | src/main/java/com/example/gestion_hotel/entity/Guest.java:13-15 | the anchored e-mail regex as a split into local part, '@', domain, '.', and two or more letters (characterised by `EmailPatternCharacterization`) |
| Guests.MatchesPhonePattern | src/main/java/com/example/gestion_hotel/entity/Guest.java:33 | the anchored phone regex: an optional '+' then 9 to 15 ASCII digits (see `PhoneRejectsSeparators`) |
| Guests.Guest.constructor | src/main/java/com/example/gestion_hotel/entity/Guest.java:17-19 | a new guest has every field null |
| Guests.Guest.Create | src/main/java/com/example/gestion_hotel/entity/Guest.java:21-26 | the three-argument constructor stores name, e-mail and phone verbatim |
| Guests.Guest.FromRow | src/main/java/com/example/gestion_hotel/dao/GuestDao.java:121-134 | a guest read from a row holds exactly that row's columns |
| Guests.Guest.ValidateEmail | src/main/java/com/example/gestion_hotel/entity/Guest.java:28-30 | false for a null e-mail; otherwise true exactly when the address has one '@' and, cut at that '@' and at its last '.', gives a non-empty local part over `[A-Za-z0-9+_.-]`, a non-empty domain over `[A-Za-z0-9.-]` and at least two ASCII letters after the '.' |
| Guests.Guest.ValidatePhone | src/main/java/com/example/gestion_hotel/entity/Guest.java:32-34 | holds exactly when the phone is an optional leading '+' followed by 9 to 15 ASCII digits |
| Guests.Guest.GetContactInfo | src/main/java/com/example/gestion_hotel/entity/Guest.java:36-38 | the text is the name, " - ", the e-mail, " - ", the phone, each part in its place, with "null" for a missing part |
| Guests.Guest.SetId | src/main/java/com/example/gestion_hotel/entity/Guest.java:41 | sets the id and nothing else |
| Guests.Guest.SetNombre | src/main/java/com/example/gestion_hotel/entity/Guest.java:44 | sets the name and nothing else |
| Guests.Guest.SetEmail | src/main/java/com/example/gestion_hotel/entity/Guest.java:47 | sets the e-mail and nothing else |
| Guests.Guest.SetTelefono | src/main/java/com/example/gestion_hotel/entity/Guest.java:50 | sets the phone and nothing else |
| RoomDao.IntersectionClashes | src/main/java/com/example/gestion_hotel/dao/RoomDao.java:72-74 | two ordered ranges sharing a day meet the query's three-part test |
| RoomDao.ClashIsClosedIntersection | src/main/java/com/example/gestion_hotel/dao/RoomDao.java:72-74 | for ordered ranges the three-part test is exactly closed-interval intersection |
| RoomDao.SameDayTurnoverClashes | src/main/java/com/example/gestion_hotel/dao/RoomDao.java:72-74 | a stay ending on a day conflicts with one starting that day |
| RoomDao.DatesClash | src/main/java/com/example/gestion_hotel/dao/RoomDao.java:72-74 | the three-part date test of the sub-query, as written (characterised by `ClashIsClosedIntersection`) |
| RoomDao.Blocks | src/main/java/com/example/gestion_hotel/dao/RoomDao.java:70-74 | a reservation excludes a room when it is ACTIVA, for that room, and meets the date test |
| RoomDao.IsBooked | src/main/java/com/example/gestion_hotel/dao/RoomDao.java:69-75 | the room is in the sub-query's answer: some reservation blocks it (see `NotBookedMeansFree`, `InactiveIgnored`) |
| RoomDao.Qualifies | src/main/java/com/example/gestion_hotel/dao/RoomDao.java:66-75 | the WHERE clause: switched on, large enough, and not booked (see `AvailableIffFree`) |
| RoomDao.FirstExists | src/main/java/com/example/gestion_hotel/dao/RoomDao.java:76 | a non-empty set of rooms has a cheapest member |
| RoomDao.FirstUnique | src/main/java/com/example/gestion_hotel/dao/RoomDao.java:76 | that cheapest member is unique |
| RoomDao.OrderByPrice | src/main/java/com/example/gestion_hotel/dao/RoomDao.java:76 | the keys are listed once each, exactly those given, in ascending price |
| RoomDao.RowsQualify | src/main/java/com/example/gestion_hotel/dao/RoomDao.java:66-75 | every listed row is a stored room that passes the WHERE clause |
| RoomDao.QualifyingRowsIncluded | src/main/java/com/example/gestion_hotel/dao/RoomDao.java:66-75 | every stored room that passes the WHERE clause is listed |
| RoomDao.RowsSorted | src/main/java/com/example/gestion_hotel/dao/RoomDao.java:76 | the listed rows are in ascending price |
| RoomDao.FindAvailableRooms | src/main/java/com/example/gestion_hotel/dao/RoomDao.java:64-99 | the answer lists, without duplicates and by ascending price, exactly the stored rooms that are switched on, hold the party and are not booked for the dates |
| RoomDao.NotBookedMeansFree | src/main/java/com/example/gestion_hotel/dao/RoomDao.java:69-75 | a room the sub-query does not exclude shares no day with any ACTIVA reservation of it |
| RoomDao.InactiveIgnored | src/main/java/com/example/gestion_hotel/dao/RoomDao.java:71 | CANCELADA and COMPLETADA reservations never exclude a room |
| RoomDao.AvailableIffFree | src/main/java/com/example/gestion_hotel/dao/RoomDao.java:64-99 | a room is listed exactly when it is switched on, holds the party, and no ACTIVA reservation of it intersects the request |
| RoomServices.CreateRoomCheck | src/main/java/com/example/gestion_hotel/service/RoomService.java:16-34 | rejects, in order, a null or blank number, a null type, and a null rate or one below 5000 cents; passes otherwise |
| RoomServices.RoomService.constructor | src/main/java/com/example/gestion_hotel/service/RoomService.java:18-20 | an empty catalogue that satisfies the invariant |
| RoomServices.RoomService.CreateRoom | src/main/java/com/example/gestion_hotel/service/RoomService.java:22-46 | the validation errors in order, then a duplicate number; success exactly when neither applies, storing the trimmed number with the type's capacity under a fresh key; a failure leaves the store unchanged; numbers stay unique |
| RoomServices.RoomService.FindRoomById | src/main/java/com/example/gestion_hotel/service/RoomService.java:48-58 | a null or non-positive id is refused; otherwise the stored room with that key, if any |
| RoomServices.RoomService.FindAvailableRooms | src/main/java/com/example/gestion_hotel/service/RoomService.java:60-79 | missing dates, reversed or past dates and a party outside 1 to 10 are refused in that order, equal dates pass; the answer is the query's |
| RoomServices.RoomService.UpdateRoom | src/main/java/com/example/gestion_hotel/service/RoomService.java:89-110 | a missing room or id, a non-positive or unknown id and a rate below the minimum are refused in that order, then an UPDATE with a null number or another room's number fails; it succeeds exactly when every check passes, and then the room's row replaces the stored one and nothing else changes |
| RoomServices.RoomService.DeleteRoom | src/main/java/com/example/gestion_hotel/service/RoomService.java:112-127 | a non-positive or unknown id is refused; it succeeds exactly when the id is positive and stored, and then exactly that row is removed |
| RoomServices.RoomService.CalculateTotalPrice | src/main/java/com/example/gestion_hotel/service/RoomService.java:129-141 | fails on a bad or unknown room, or missing or reversed dates; otherwise rate times the days between, 0 for equal dates, never negative in a valid catalogue |
| RoomServices.TotalPriceMatchesRoom | src/main/java/com/example/gestion_hotel/service/RoomService.java:139-140 | for a stay of at least one night the service's price is the entity's `calcularPrecioTotal` |
| RoomServices.TotalPriceAdditive | src/main/java/com/example/gestion_hotel/service/RoomService.java:139-140 | splitting a stay at a day in between splits its price |
| GuestServices.FindByEmail | src/main/java/com/example/gestion_hotel/dao/GuestDao.java:60-74 | finds a guest exactly when one has that e-mail, and returns that guest's row |
| GuestServices.CreateGuestCheck | src/main/java/com/example/gestion_hotel/service/GuestService.java:18-36 | rejects, in order, a null or blank name, a trimmed name shorter than 2 UTF-16 code units, an invalid e-mail, an invalid phone |
| GuestServices.GuestService.constructor | src/main/java/com/example/gestion_hotel/service/GuestService.java:14-16 | an empty directory that satisfies the invariant |
| GuestServices.GuestService.CreateGuest | src/main/java/com/example/gestion_hotel/service/GuestService.java:18-50 | the validation errors in order, then an e-mail already registered; success exactly when neither applies, storing the trimmed name under a fresh key; e-mails stay unique |
| GuestServices.GuestService.FindGuestById | src/main/java/com/example/gestion_hotel/service/GuestService.java:52-62 | a null or non-positive id is refused; otherwise the stored guest with that key, if any |
| GuestServices.GuestService.FindGuestByEmail | src/main/java/com/example/gestion_hotel/service/GuestService.java:64-74 | a null or blank e-mail is refused; otherwise the guest with that e-mail, if any |
| GuestServices.GuestService.UpdateGuest | src/main/java/com/example/gestion_hotel/service/GuestService.java:84-117 | a missing guest or id, an unknown id, an invalid e-mail or phone, and an e-mail owned by another guest are refused in that order; the name is not checked; success writes the guest's fields under its id |
| GuestServices.GuestService.DeleteGuest | src/main/java/com/example/gestion_hotel/service/GuestService.java:119-135 | a non-positive or unknown id is refused; it succeeds exactly when the id is positive and stored, and then exactly that row is removed |
| GuestServices.OwnEmailNotTaken | src/main/java/com/example/gestion_hotel/service/GuestService.java:105-110 | a guest keeping its own e-mail is never refused for it |
| ReservationServices.ValidateReservationInput | src/main/java/com/example/gestion_hotel/service/ReservationService.java:198-223 | checks, in order, guest id, room id, both dates present, check-in not after check-out, check-in not before today, 1 to 10 guests; equal dates pass |
| ReservationServices.NoDoubleBooking | src/main/java/com/example/gestion_hotel/service/ReservationService.java:50-57 | the invariant the availability check upholds: no two different ACTIVA reservations of one room share a day (proved preserved by `PlacingKeepsNoDoubleBooking`) |
| ReservationServices.AnyMatch | src/main/java/com/example/gestion_hotel/service/ReservationService.java:52-53 | `anyMatch` over the answer: some listed room has the requested id (characterised by `AnyMatchIffQualifies`) |
| ReservationServices.ReservationService.constructor | src/main/java/com/example/gestion_hotel/service/ReservationService.java:21-25 | an empty reservation table over the given directory and catalogue, satisfying the invariant |
| ReservationServices.ReservationService.CheckBooking | src/main/java/com/example/gestion_hotel/service/ReservationService.java:33-57 | unknown guest, unknown room, insufficient capacity and an unavailable room are refused in that order; passes exactly when the booking is possible |
| ReservationServices.ReservationService.CreateReservation | src/main/java/com/example/gestion_hotel/service/ReservationService.java:27-71 | input errors first; once the input passes, an unknown guest, an unknown room, too small a room and an unavailable room are refused in that order; success exactly when all pass, storing an ACTIVA row with the requested fields, total rate times nights and a fresh key; a failure changes nothing; no room is double-booked afterwards |
| ReservationServices.ReservationService.FindReservationById | src/main/java/com/example/gestion_hotel/service/ReservationService.java:73-83 | a null or non-positive id is refused; otherwise the stored reservation with that key, if any |
| ReservationServices.ReservationService.FindReservationsByGuest | src/main/java/com/example/gestion_hotel/service/ReservationService.java:85-95 | a null or non-positive id is refused; otherwise exactly the stored reservations of that guest |
| ReservationServices.ReservationService.FindReservationsByRoom | src/main/java/com/example/gestion_hotel/service/ReservationService.java:97-107 | a null or non-positive id is refused; otherwise exactly the stored reservations of that room |
| ReservationServices.ReservationService.GetActiveReservations | src/main/java/com/example/gestion_hotel/service/ReservationService.java:109-115 | exactly the stored ACTIVA reservations |
| ReservationServices.ReservationService.CheckRebooking | src/main/java/com/example/gestion_hotel/service/ReservationService.java:134-151 | reversed or past new dates are refused, then a party outside 1 to 10, then the room missing from the availability answer; passes exactly when the room passes the query for the new dates |
| ReservationServices.ReservationService.CheckNewCount | src/main/java/com/example/gestion_hotel/service/ReservationService.java:153-160 | a new guest count is refused exactly when the room still exists and cannot host it |
| ReservationServices.RebookCheck | src/main/java/com/example/gestion_hotel/service/ReservationService.java:133-166 | the checks after the lookups, in order: reversed or past new dates, a party outside 1 to 10, the room missing from the availability answer, a count the room cannot hold, a room gone when the total is priced; passes exactly when the room exists, any new dates qualify for it, and any new count fits |
| ReservationServices.ReservationService.Rebook | src/main/java/com/example/gestion_hotel/service/ReservationService.java:133-166 | fails exactly when `RebookCheck` does, with its error; otherwise dates change only when both are given, the count only when given, and the total is recomputed from the resulting dates, so a count-only change keeps a consistent total |
| ReservationServices.ReservationService.UpdateReservation | src/main/java/com/example/gestion_hotel/service/ReservationService.java:117-173 | a bad id, an unknown id and a non-ACTIVA reservation are refused in that order; then the error `RebookCheck` gives, and success exactly when it passes; new dates sharing a day with the current ones are refused; success rewrites that one row with the new dates, count and recomputed total; a failure changes nothing; no room is double-booked afterwards |
| ReservationServices.ReservationService.CancelReservation | src/main/java/com/example/gestion_hotel/service/ReservationService.java:175-196 | succeeds exactly when the reservation exists, is ACTIVA and starts after today; it then becomes CANCELADA with every other field kept, and true is returned |
| ReservationServices.AnyMatchIffQualifies | src/main/java/com/example/gestion_hotel/service/ReservationService.java:51-55 | the room is in the availability answer exactly when it is stored and passes the query's WHERE clause |
| ReservationServices.SelfOverlapBlocks | src/main/java/com/example/gestion_hotel/service/ReservationService.java:139-147 | an ACTIVA reservation intersecting the new dates books its own room for them |
| ReservationServices.SelfOverlapRejected | src/main/java/com/example/gestion_hotel/service/ReservationService.java:139-147 | new dates intersecting the reservation's own current dates never pass the availability re-check |
| ReservationServices.FreeRoomFits | src/main/java/com/example/gestion_hotel/service/ReservationService.java:51-57 | a row for a room the sub-query leaves free clashes with no other ACTIVA reservation |
| ReservationServices.UnchangedFits | src/main/java/com/example/gestion_hotel/service/ReservationService.java:153-166 | rewriting a reservation with its room and dates kept clashes with nothing |
| ReservationServices.PlacingKeepsNoDoubleBooking | src/main/java/com/example/gestion_hotel/service/ReservationService.java:51-57 | writing a row that clashes with no other ACTIVA reservation keeps every room free of double bookings |
| ReservationServices.ActiveReservationsDisjoint | src/main/java/com/example/gestion_hotel/service/ReservationService.java:109-115 | in a consistent store, two different ACTIVA reservations of one room share no day |
| ReservationServices.ZeroNightStay | src/main/java/com/example/gestion_hotel/service/ReservationService.java:208-218 | a stay with equal dates passes the input checks and is priced 0 |

## Left out

- The JDBC layer (connections, statements, result-set mapping error paths, SQL exceptions) is not part of this model. The tables are in-memory maps, so a database error cannot occur.
- `ReservationDao` and `GuestDao` are not part of this model beyond what the services rely on: insert under a fresh key, update by key, delete by key, lookup by key, and `GuestDao.findByEmail`.
- RoomDao's other methods are modelled only through the services' use of the rooms map.
- `ReservaControllerSimulado` is not part of this model: it returns hard-coded objects.
- `getAllRooms` and `getAllGuests` are not modelled. They return the whole table, which is the map itself.
- The `fechaCreacion` and `fechaRegistro` timestamps and `toString` are not modelled.
- Clock reads are a `today` parameter. Concurrency and transactions are out of scope: each service call is one atomic step.
- The reservation finders return sets of rows rather than lists. Their SQL orders the rows (by creation time, newest first, for a guest; by check-in for a room and for the ACTIVA list); that order is not modelled.
- Rooms of equal price are listed by ascending key. SQL leaves that order unspecified.
- BigDecimal scale and precision are not modelled; amounts are whole cents.
- E-mail equality is exact; the database collation may compare case-insensitively.
- Foreign keys are not modelled: deleting a guest or room does not touch its reservations.
- The services return rows, not the mutated entity objects.
- The room number is assumed NOT NULL and UNIQUE in the table, as the duplicate-entry handling in `createRoom` implies. A duplicate number is detected by a lookup instead of by an SQL error message.
- RoomServices.RoomService.UpdateRoom: an UPDATE that the database would reject (a null number, or a number held by another room) is reported as one error kind, `RoomUpdateFailed`.
- Null dereferences in the source (`updateRoom` with a null rate, `puedeSerCancelada` on an ACTIVA reservation without check-in) are preconditions, not modelled failures.
