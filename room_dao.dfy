/**
 * The availability query of the rooms table (`RoomDao.findAvailableRooms`),
 * as a filter and a sort over the two tables it reads.
 */
module RoomDao {
  import opened Units
  import opened Rooms
  import opened Reservations
  import opened ReservationStates

  /** The table is keyed by its `id` column. */
  ghost predicate Keyed(rooms: map<int, RoomRow>) {
    forall k | k in rooms :: rooms[k].id == k
  }

  /**
   * The query's date test for a reservation [resIn, resOut] against a
   * request [checkIn, checkOut]: its check-in lies in the request, or its
   * check-out does, or it spans the whole request. BETWEEN is inclusive.
   */
  predicate DatesClash(resIn: Day, resOut: Day, checkIn: Day, checkOut: Day) {
    || (checkIn <= resIn <= checkOut)
    || (checkIn <= resOut <= checkOut)
    || (resIn <= checkIn && resOut >= checkOut)
  }

  /** The closed ranges [a, b] and [c, d] share at least one day. */
  predicate Intersect(a: Day, b: Day, c: Day, d: Day) {
    a <= d && c <= b
  }

  /** Ranges that share a day always clash, whatever their order. */
  lemma IntersectionClashes(resIn: Day, resOut: Day, checkIn: Day, checkOut: Day)
    requires Intersect(resIn, resOut, checkIn, checkOut)
    ensures DatesClash(resIn, resOut, checkIn, checkOut)
  {
  }

  /**
   * For ordered ranges the three-clause test is exactly closed-interval
   * intersection: a stay ending on day X clashes with one starting on day X.
   */
  lemma ClashIsClosedIntersection(resIn: Day, resOut: Day, checkIn: Day, checkOut: Day)
    requires resIn <= resOut && checkIn <= checkOut
    ensures DatesClash(resIn, resOut, checkIn, checkOut) <==> Intersect(resIn, resOut, checkIn, checkOut)
  {
  }

  /** `res` is an ACTIVA reservation of room `roomId` that clashes with the request. */
  predicate Blocks(res: ReservationRow, roomId: int, checkIn: Day, checkOut: Day) {
    res.estado == ACTIVA && res.roomId == roomId && DatesClash(res.checkIn, res.checkOut, checkIn, checkOut)
  }

  /** The room's id is in the sub-query `SELECT room_id ... WHERE estado = 'ACTIVA' AND ...`. */
  predicate IsBooked(reservations: map<int, ReservationRow>, roomId: int, checkIn: Day, checkOut: Day) {
    exists k | k in reservations :: Blocks(reservations[k], roomId, checkIn, checkOut)
  }

  /** The WHERE clause for one room. */
  predicate Qualifies(room: RoomRow, reservations: map<int, ReservationRow>,
                      checkIn: Day, checkOut: Day, numGuests: int)
  {
    && room.disponible
    && room.capacidadMaxima >= numGuests
    && !IsBooked(reservations, room.id, checkIn, checkOut)
  }

  /** The keys of the rows the WHERE clause keeps. */
  function Eligible(rooms: map<int, RoomRow>, reservations: map<int, ReservationRow>,
                    checkIn: Day, checkOut: Day, numGuests: int): (ids: set<int>)
    ensures ids <= rooms.Keys
  {
    set k | k in rooms && Qualifies(rooms[k], reservations, checkIn, checkOut, numGuests)
  }

  /** Key `a` sorts no later than key `b`: cheaper, or as cheap with a smaller key. */
  predicate SortsBefore(rooms: map<int, RoomRow>, a: int, b: int)
    requires a in rooms && b in rooms
  {
    || rooms[a].precioPorNoche < rooms[b].precioPorNoche
    || (rooms[a].precioPorNoche == rooms[b].precioPorNoche && a <= b)
  }

  /** A set with no member is the empty set. */
  lemma NoMemberEmpty(ids: set<int>)
    requires forall y :: y !in ids
    ensures ids == {}
  {
    assert forall y :: (y in ids) == (y in {});
  }

  /** A set of positive size has a member. */
  lemma {:induction false} SomeMember(ids: set<int>) returns (x: int)
    requires |ids| > 0
    ensures x in ids
  {
    if forall y :: y !in ids {
      NoMemberEmpty(ids);
      assert false;
    }
    x :| x in ids;
  }

  /** `k` is the key of `ids` that sorts first. */
  predicate IsFirst(rooms: map<int, RoomRow>, ids: set<int>, k: int)
    requires ids <= rooms.Keys
  {
    k in ids && forall j | j in ids :: SortsBefore(rooms, k, j)
  }

  /** Every non-empty set of keys has a first key. */
  lemma {:induction false} FirstExists(rooms: map<int, RoomRow>, ids: set<int>)
    requires |ids| > 0 && ids <= rooms.Keys
    ensures exists k :: IsFirst(rooms, ids, k)
    decreases |ids|
  {
    var x := SomeMember(ids);
    if ids == {x} {
      assert IsFirst(rooms, ids, x);
    } else {
      var rest := ids - {x};
      FirstExists(rooms, rest);
      var m :| IsFirst(rooms, rest, m);
      if SortsBefore(rooms, x, m) {
        forall j | j in ids ensures SortsBefore(rooms, x, j) {
          if j != x { assert SortsBefore(rooms, m, j); }
        }
        assert IsFirst(rooms, ids, x);
      } else {
        assert IsFirst(rooms, ids, m);
      }
    }
  }

  /** Two first keys of the same set are the same key. */
  lemma FirstUnique(rooms: map<int, RoomRow>, ids: set<int>)
    requires ids <= rooms.Keys
    ensures forall a, b | IsFirst(rooms, ids, a) && IsFirst(rooms, ids, b) :: a == b
  {
    forall a, b | IsFirst(rooms, ids, a) && IsFirst(rooms, ids, b) ensures a == b {
      assert SortsBefore(rooms, a, b) && SortsBefore(rooms, b, a);
    }
  }

  /** ORDER BY precio_por_noche; rooms of equal price come out by increasing key. */
  function OrderByPrice(rooms: map<int, RoomRow>, ids: set<int>): (r: seq<int>)
    requires ids <= rooms.Keys
    ensures |r| == |ids|
    ensures forall i | 0 <= i < |r| :: r[i] in ids
    ensures forall k | k in ids :: k in r
    ensures forall i, j | 0 <= i < j < |r| :: r[i] != r[j] && SortsBefore(rooms, r[i], r[j])
    decreases |ids|
  {
    if ids == {} then []
    else
      FirstExists(rooms, ids);
      FirstUnique(rooms, ids);
      var k :| IsFirst(rooms, ids, k);
      var rest := OrderByPrice(rooms, ids - {k});
      assert |ids - {k}| == |ids| - 1;
      assert forall i | 0 <= i < |rest| :: rest[i] != k && SortsBefore(rooms, k, rest[i]);
      [k] + rest
  }

  /** The rows stored under the keys `ids`, in the same order. */
  function RowsAt(rooms: map<int, RoomRow>, ids: seq<int>): (r: seq<RoomRow>)
    requires forall i | 0 <= i < |ids| :: ids[i] in rooms
    ensures |r| == |ids|
    ensures forall i | 0 <= i < |ids| :: r[i] == rooms[ids[i]]
  {
    if ids == [] then [] else [rooms[ids[0]]] + RowsAt(rooms, ids[1..])
  }

  /** The rows at the sorted eligible keys are stored rows that pass the WHERE clause. */
  lemma RowsQualify(rooms: map<int, RoomRow>, reservations: map<int, ReservationRow>,
                    checkIn: Day, checkOut: Day, numGuests: int, ids: seq<int>, r: seq<RoomRow>)
    requires ids == OrderByPrice(rooms, Eligible(rooms, reservations, checkIn, checkOut, numGuests))
    requires r == RowsAt(rooms, ids)
    ensures forall i | 0 <= i < |r| ::
              r[i] in rooms.Values && Qualifies(r[i], reservations, checkIn, checkOut, numGuests)
  {
    forall i | 0 <= i < |r|
      ensures r[i] in rooms.Values && Qualifies(r[i], reservations, checkIn, checkOut, numGuests)
    {
      assert ids[i] in Eligible(rooms, reservations, checkIn, checkOut, numGuests);
    }
  }

  /** Every stored row that passes the WHERE clause is among the rows at the sorted keys. */
  lemma QualifyingRowsIncluded(rooms: map<int, RoomRow>, reservations: map<int, ReservationRow>,
                               checkIn: Day, checkOut: Day, numGuests: int, ids: seq<int>, r: seq<RoomRow>)
    requires ids == OrderByPrice(rooms, Eligible(rooms, reservations, checkIn, checkOut, numGuests))
    requires r == RowsAt(rooms, ids)
    ensures forall k | k in rooms && Qualifies(rooms[k], reservations, checkIn, checkOut, numGuests) ::
              rooms[k] in r
  {
    forall k | k in rooms && Qualifies(rooms[k], reservations, checkIn, checkOut, numGuests)
      ensures rooms[k] in r
    {
      assert k in Eligible(rooms, reservations, checkIn, checkOut, numGuests);
      var i :| 0 <= i < |ids| && ids[i] == k;
      assert r[i] == rooms[k];
    }
  }

  /** The rows at keys sorted by `SortsBefore` come out cheapest first, with distinct ids in a keyed table. */
  lemma RowsSorted(rooms: map<int, RoomRow>, ids: seq<int>, r: seq<RoomRow>)
    requires forall i | 0 <= i < |ids| :: ids[i] in rooms
    requires forall i, j | 0 <= i < j < |ids| :: ids[i] != ids[j] && SortsBefore(rooms, ids[i], ids[j])
    requires r == RowsAt(rooms, ids)
    ensures forall i, j | 0 <= i < j < |r| :: r[i].precioPorNoche <= r[j].precioPorNoche
    ensures Keyed(rooms) ==> forall i, j | 0 <= i < j < |r| :: r[i].id != r[j].id
  {
    forall i, j | 0 <= i < j < |r| ensures r[i].precioPorNoche <= r[j].precioPorNoche {
      assert SortsBefore(rooms, ids[i], ids[j]);
    }
  }

  /**
   * The rooms that are switched on, hold `numGuests`, and have no ACTIVA
   * reservation clashing with [checkIn, checkOut], cheapest first.
   */
  function FindAvailableRooms(rooms: map<int, RoomRow>, reservations: map<int, ReservationRow>,
                              checkIn: Day, checkOut: Day, numGuests: int): (r: seq<RoomRow>)
    ensures forall i | 0 <= i < |r| :: r[i] in rooms.Values
    ensures forall i | 0 <= i < |r| ::
              r[i].disponible && r[i].capacidadMaxima >= numGuests &&
              !IsBooked(reservations, r[i].id, checkIn, checkOut)
    ensures forall k | k in rooms && Qualifies(rooms[k], reservations, checkIn, checkOut, numGuests) ::
              rooms[k] in r
    ensures forall i, j | 0 <= i < j < |r| :: r[i].precioPorNoche <= r[j].precioPorNoche
    ensures Keyed(rooms) ==> forall i, j | 0 <= i < j < |r| :: r[i].id != r[j].id
  {
    var ids := OrderByPrice(rooms, Eligible(rooms, reservations, checkIn, checkOut, numGuests));
    var r := RowsAt(rooms, ids);
    RowsQualify(rooms, reservations, checkIn, checkOut, numGuests, ids, r);
    QualifyingRowsIncluded(rooms, reservations, checkIn, checkOut, numGuests, ids, r);
    RowsSorted(rooms, ids, r);
    r
  }

  /** A stay that ends on day `d` blocks a stay that starts on day `d`: there is no same-day turnover. */
  lemma SameDayTurnoverClashes(a: Day, d: Day, b: Day)
    requires a <= d <= b
    ensures DatesClash(a, d, d, b)
  {
  }

  /** A room the sub-query does not return shares no day with any ACTIVA reservation of it. */
  lemma NotBookedMeansFree(reservations: map<int, ReservationRow>, roomId: int, checkIn: Day, checkOut: Day)
    requires !IsBooked(reservations, roomId, checkIn, checkOut)
    ensures forall j | j in reservations && reservations[j].estado == ACTIVA && reservations[j].roomId == roomId ::
              !Intersect(reservations[j].checkIn, reservations[j].checkOut, checkIn, checkOut)
  {
    forall j | j in reservations && reservations[j].estado == ACTIVA && reservations[j].roomId == roomId
      ensures !Intersect(reservations[j].checkIn, reservations[j].checkOut, checkIn, checkOut)
    {
      assert !Blocks(reservations[j], roomId, checkIn, checkOut);
    }
  }

  /** Rows that are not ACTIVA play no part in the sub-query: dropping one changes nothing. */
  lemma {:induction false} InactiveIgnored(reservations: map<int, ReservationRow>, k: int,
                                           roomId: int, checkIn: Day, checkOut: Day)
    requires k in reservations && reservations[k].estado != ACTIVA
    ensures IsBooked(reservations, roomId, checkIn, checkOut)
            <==> IsBooked(reservations - {k}, roomId, checkIn, checkOut)
  {
    var rest := reservations - {k};
    if IsBooked(reservations, roomId, checkIn, checkOut) {
      var j :| j in reservations && Blocks(reservations[j], roomId, checkIn, checkOut);
      assert j in rest && rest[j] == reservations[j];
    }
    if IsBooked(rest, roomId, checkIn, checkOut) {
      var j :| j in rest && Blocks(rest[j], roomId, checkIn, checkOut);
      assert j in reservations && reservations[j] == rest[j];
    }
  }

  /**
   * In a keyed table, with every stay and the request ordered, a room is
   * listed exactly when it is switched on, holds the party, and no ACTIVA
   * reservation of it shares a day with the request.
   */
  lemma {:induction false} AvailableIffFree(rooms: map<int, RoomRow>, reservations: map<int, ReservationRow>,
                                            checkIn: Day, checkOut: Day, numGuests: int, k: int)
    requires Keyed(rooms) && k in rooms
    requires checkIn <= checkOut
    requires forall j | j in reservations :: reservations[j].checkIn <= reservations[j].checkOut
    ensures rooms[k] in FindAvailableRooms(rooms, reservations, checkIn, checkOut, numGuests)
            <==> && rooms[k].disponible
                 && rooms[k].capacidadMaxima >= numGuests
                 && forall j | j in reservations && reservations[j].estado == ACTIVA && reservations[j].roomId == k ::
                      !Intersect(reservations[j].checkIn, reservations[j].checkOut, checkIn, checkOut)
  {
    var r := FindAvailableRooms(rooms, reservations, checkIn, checkOut, numGuests);
    var free := forall j | j in reservations && reservations[j].estado == ACTIVA && reservations[j].roomId == k ::
                  !Intersect(reservations[j].checkIn, reservations[j].checkOut, checkIn, checkOut);
    assert rooms[k].id == k;
    assert free <==> !IsBooked(reservations, k, checkIn, checkOut) by {
      forall j | j in reservations
        ensures Blocks(reservations[j], k, checkIn, checkOut)
                <==> (reservations[j].estado == ACTIVA && reservations[j].roomId == k &&
                      Intersect(reservations[j].checkIn, reservations[j].checkOut, checkIn, checkOut))
      {
        ClashIsClosedIntersection(reservations[j].checkIn, reservations[j].checkOut, checkIn, checkOut);
      }
    }
    if rooms[k] in r {
      var i :| 0 <= i < |r| && r[i] == rooms[k];
      assert Qualifies(r[i], reservations, checkIn, checkOut, numGuests);
    }
  }
}
