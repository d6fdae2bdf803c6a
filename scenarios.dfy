/**
 * The booking sequences described by the repository's specs, as clients of the Booker and Room
 * contracts. Day n stands for n April 2019.
 */
module BookingScenarios {
  import opened Outcomes
  import opened Dates
  import opened Hotel
  import opened Booking

  /**
   * Twenty bookings of 3 to 6 April on a new
   * Booker get ids 1..20 on twenty different rooms; no room is left for the
   * stay and a twenty-first booking fails.
   */
  method TwentyBookingsOfOneStay() returns (ids: seq<int>, chosen: seq<Room>, free: seq<Room>, extra: Result<Reservation>)
    ensures |ids| == RoomCount && forall i :: 0 <= i < |ids| ==> ids[i] == i + 1
    ensures |chosen| == RoomCount && forall i, j :: 0 <= i < j < |chosen| ==> chosen[i] != chosen[j]
    ensures free == []
    ensures extra == Err(NoAvailableRoom)
  {
    var booker := new Booker();
    var stay := DateRange(3, 6);
    ids, chosen := [], [];
    while |ids| < RoomCount
      invariant booker.Valid() && fresh(booker.RoomSet())
      invariant |ids| == |chosen| == |booker.reservations| <= RoomCount
      invariant forall i :: 0 <= i < |ids| ==> ids[i] == i + 1 && chosen[i] == booker.rooms[i]
      invariant forall i :: 0 <= i < |ids| ==> !booker.rooms[i].IsAvailable(stay)
      invariant forall i :: |ids| <= i < RoomCount ==> booker.rooms[i].reservations == []
    {
      var made := BookFirstFreeRoom(booker, |ids|, 3, 6, 200);
      ids := ids + [made.id];
      chosen := chosen + [made.room];
    }
    free, extra := BookFullStay(booker, 3, 6, 200);
  }

  /**
   * When every room before position k clashes with start..end and room k is
   * free, a booking lands on room k under the next id, after which room k is
   * taken for the stay and every other room is unchanged.
   */
  method BookFirstFreeRoom(booker: Booker, k: nat, start: int, end: int, price: int) returns (made: Reservation)
    requires booker.Valid() && start < end && k < |booker.rooms|
    requires forall i :: 0 <= i < k ==> !booker.rooms[i].IsAvailable(DateRange(start, end))
    requires booker.rooms[k].IsAvailable(DateRange(start, end))
    modifies booker, booker.RoomSet()
    ensures booker.Valid()
    ensures made.id == old(booker.nextId) && made.room == booker.rooms[k]
    ensures booker.reservations == old(booker.reservations) + [made]
    ensures !booker.rooms[k].IsAvailable(DateRange(start, end))
    ensures forall i :: 0 <= i < |booker.rooms| && i != k ==>
      booker.rooms[i].reservations == old(booker.rooms[i].reservations)
  {
    assert booker.OpenRoom(DateRange(start, end)) == Ok(booker.rooms[k]);
    var res := booker.Reserve(start, end, price);
    made := res.value;
  }

  /**
   * Once every room holds a reservation clashing with start..end, no room is
   * listed as available and a further booking fails without changing anything.
   */
  method BookFullStay(booker: Booker, start: int, end: int, price: int) returns (free: seq<Room>, extra: Result<Reservation>)
    requires booker.Valid() && start <= end
    requires forall room :: room in booker.rooms ==> !room.IsAvailable(DateRange(start, end))
    modifies booker, booker.RoomSet()
    ensures free == []
    ensures extra == Err(NoAvailableRoom)
    ensures booker.reservations == old(booker.reservations)
  {
    free := booker.AvailableRooms(DateRange(start, end));
    NoMemberMeansEmpty(free);
    extra := booker.Reserve(start, end, price);
  }

  lemma NoMemberMeansEmpty<T>(s: seq<T>)
    ensures (forall x :: x !in s) ==> s == []
  {
    if s != [] {
      assert s[0] in s;
    }
  }

  /**
   * On a room holding 3 to 6 April, a stay of 3 to 5 April is refused while
   * 1 to 3 April (ending on its start) and 6 to 7 April (starting on its end)
   * are booked and appended to the room.
   */
  method BackToBackStays() returns (room: Room, clash: Result<Reservation>, before: Result<Reservation>, after: Result<Reservation>)
    ensures clash == Err(RoomUnavailable)
    ensures before.Ok? && after.Ok?
    ensures |room.reservations| == 3 && room.reservations[1..] == [before.value, after.value]
  {
    room := new Room(1);
    var first := Reservation.New(1, DateRange(3, 6), room, 200, None);
    assert room.reservations[0].Overlaps(DateRange(3, 5));
    clash := Reservation.New(2, DateRange(3, 5), room, 200, None);
    before := Reservation.New(3, DateRange(1, 3), room, 200, None);
    after := Reservation.New(3, DateRange(6, 7), room, 200, None);
  }

  /**
   * On a new Booker the previewed room for 3 to 6 April is free, the booking
   * that follows lands on that same room, and the room is then taken for the stay.
   */
  method OpenRoomThenReserve() returns (preview: Result<Room>, freeBefore: bool, made: Result<Reservation>, freeAfter: bool)
    ensures preview.Ok? && freeBefore
    ensures made.Ok? && made.value.room == preview.value && made.value.id == 1
    ensures !freeAfter
  {
    var booker := new Booker();
    var stay := DateRange(3, 6);
    assert booker.rooms[0].IsAvailable(stay);
    preview := booker.OpenRoom(stay);
    freeBefore := preview.value.IsAvailable(stay);
    made := booker.Reserve(3, 6, 200);
    freeAfter := made.value.room.IsAvailable(stay);
  }

  /** A new Booker lists no reservation for any range. */
  method NoReservationsOnNewBooker(stay: DateRange) returns (hits: seq<Reservation>)
    ensures hits == []
  {
    var booker := new Booker();
    hits := booker.ReservationsByDate(stay);
    NoMemberMeansEmpty(hits);
  }
}
