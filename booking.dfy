/**
 * The booking façade: a fixed inventory of rooms with ids 1..20, a master
 * list of reservations in creation order, first-fit room allocation and the
 * availability and by-date queries.
 */
module Booking {
  import opened Outcomes
  import opened Dates
  import opened Hotel

  const RoomCount := 20

  /**
   * First-fit allocation: the position of the first room free for the range,
   * or None when every room has a clashing reservation.
   */
  function FirstFit(rooms: seq<Room>, dateRange: DateRange): (slot: Option<nat>)
    reads rooms
    ensures slot.Some? ==> slot.value < |rooms| && rooms[slot.value].IsAvailable(dateRange)
    ensures forall j :: 0 <= j < |rooms| && (slot.None? || j < slot.value) ==> !rooms[j].IsAvailable(dateRange)
  {
    if |rooms| == 0 then None
    else if rooms[0].IsAvailable(dateRange) then Some(0)
    else match FirstFit(rooms[1..], dateRange)
      case None => None
      case Some(k) => Some(k + 1)
  }

  /** The rooms free for the range, in inventory order. */
  function FreeRooms(rooms: seq<Room>, dateRange: DateRange): (free: seq<Room>)
    reads rooms
    ensures forall room :: room in free ==> room in rooms && room.IsAvailable(dateRange)
    ensures forall room :: room in rooms && room.IsAvailable(dateRange) ==> room in free
  {
    if |rooms| == 0 then []
    else if rooms[0].IsAvailable(dateRange) then [rooms[0]] + FreeRooms(rooms[1..], dateRange)
    else FreeRooms(rooms[1..], dateRange)
  }

  /** The reservations that overlap the range by the half-open endpoint rule, in their original order. */
  function Overlapping(booked: seq<Reservation>, dateRange: DateRange): (hits: seq<Reservation>)
    ensures forall r :: r in hits ==> r in booked && r.Overlaps(dateRange)
    ensures forall r :: r in booked && r.Overlaps(dateRange) ==> r in hits
  {
    if |booked| == 0 then []
    else if booked[0].Overlaps(dateRange) then [booked[0]] + Overlapping(booked[1..], dateRange)
    else Overlapping(booked[1..], dateRange)
  }

  predicate RoomIdsIncrease(rooms: seq<Room>) {
    forall i, j :: 0 <= i < j < |rooms| ==> rooms[i].id < rooms[j].id
  }

  predicate ReservationIdsIncrease(booked: seq<Reservation>) {
    forall i, j :: 0 <= i < j < |booked| ==> booked[i].id < booked[j].id
  }

  /** Filtering keeps the inventory order. */
  lemma {:induction false} FreeRoomsKeepOrder(rooms: seq<Room>, dateRange: DateRange)
    requires RoomIdsIncrease(rooms)
    ensures RoomIdsIncrease(FreeRooms(rooms, dateRange))
  {
    if |rooms| > 0 {
      FreeRoomsKeepOrder(rooms[1..], dateRange);
      var rest := FreeRooms(rooms[1..], dateRange);
      forall room | room in rest ensures rooms[0].id < room.id {
        var k :| 0 <= k < |rooms[1..]| && rooms[1..][k] == room;
        assert rooms[k + 1] == room;
      }
    }
  }

  /** Filtering keeps the creation order. */
  lemma {:induction false} OverlappingKeepsOrder(booked: seq<Reservation>, dateRange: DateRange)
    requires ReservationIdsIncrease(booked)
    ensures ReservationIdsIncrease(Overlapping(booked, dateRange))
  {
    if |booked| > 0 {
      OverlappingKeepsOrder(booked[1..], dateRange);
      var rest := Overlapping(booked[1..], dateRange);
      forall r | r in rest ensures booked[0].id < r.id {
        var k :| 0 <= k < |booked[1..]| && booked[1..][k] == r;
        assert booked[k + 1] == r;
      }
    }
  }

  class Booker {
    const rooms: seq<Room>
    var reservations: seq<Reservation>
    var nextId: int

    ghost function RoomSet(): set<Room> {
      set room | room in rooms
    }

    /**
     * Rooms 1..20 in order, each consistent on its own; reservation ids run
     * 1, 2, ... in creation order and the counter is the next one; every
     * reservation sits on one of the rooms and is registered there, and every
     * reservation on a room is in the master list.
     */
    ghost predicate Valid()
      reads this, RoomSet()
    {
      && |rooms| == RoomCount
      && (forall i :: 0 <= i < |rooms| ==> rooms[i].id == i + 1 && rooms[i].Valid())
      && nextId == |reservations| + 1
      && (forall i :: 0 <= i < |reservations| ==>
            && reservations[i].id == i + 1
            && reservations[i].room in RoomSet()
            && reservations[i] in reservations[i].room.reservations)
      && (forall i, r :: 0 <= i < |rooms| && r in rooms[i].reservations ==> r in reservations)
    }

    constructor ()
      ensures Valid() && fresh(RoomSet())
      ensures |rooms| == RoomCount && forall i :: 0 <= i < |rooms| ==> rooms[i].id == i + 1
      ensures forall i :: 0 <= i < |rooms| ==> rooms[i].reservations == []
      ensures reservations == [] && nextId == 1
    {
      var made: seq<Room> := [];
      while |made| < RoomCount
        invariant |made| <= RoomCount
        invariant forall i :: 0 <= i < |made| ==> made[i].id == i + 1 && made[i].reservations == [] && made[i].Valid()
        invariant forall i :: 0 <= i < |made| ==> fresh(made[i])
      {
        var room := new Room(|made| + 1);
        made := made + [room];
      }
      rooms := made;
      reservations := [];
      nextId := 1;
    }

    /** The room a reservation for the range would get, without booking it. */
    function OpenRoom(dateRange: DateRange): (res: Result<Room>)
      requires Valid()
      reads this, RoomSet()
      ensures res.Ok? ==> res.value in rooms && res.value.IsAvailable(dateRange)
      ensures res.Ok? ==> forall room :: room in rooms && room.IsAvailable(dateRange) ==> res.value.id <= room.id
      ensures forall k :: 0 <= k < |rooms| && rooms[k].IsAvailable(dateRange) &&
                          (forall j :: 0 <= j < k ==> !rooms[j].IsAvailable(dateRange))
                          ==> res == Ok(rooms[k])
      ensures res.Err? ==> res.error == NoAvailableRoom && forall room :: room in rooms ==> !room.IsAvailable(dateRange)
    {
      match FirstFit(rooms, dateRange)
      case None => Err(NoAvailableRoom)
      case Some(k) => Ok(rooms[k])
    }

    /**
     * Books the stay start..end on the first free room, under the next
     * reservation id, and records it in the master list. Nothing changes on
     * failure.
     */
    method Reserve(start: int, end: int, price: int) returns (res: Result<Reservation>)
      requires Valid()
      modifies this, RoomSet()
      ensures Valid()
      ensures start > end ==> res == Err(InvalidRange)
      ensures start <= end ==> var dateRange := DateRange(start, end);
        && (res.Ok? <==> old(OpenRoom(dateRange)).Ok?)
        && (res.Err? ==> res.error == NoAvailableRoom)
        && (res.Ok? ==>
              && res.value.id == old(nextId)
              && res.value.dateRange == dateRange && res.value.price == price
              && res.value.block.None? && res.value.blockId.None?
              && res.value.room == old(OpenRoom(dateRange)).value
              && res.value.room.reservations == old(res.value.room.reservations) + [res.value]
              && (start < end ==> !res.value.room.IsAvailable(dateRange)))
      ensures res.Ok? ==> reservations == old(reservations) + [res.value] && nextId == old(nextId) + 1
      ensures res.Err? ==> reservations == old(reservations) && nextId == old(nextId)
      ensures forall room :: room in rooms && (res.Err? || room != res.value.room) ==>
        room.reservations == old(room.reservations)
    {
      var rangeOrError := DateRange.Make(start, end);
      if rangeOrError.Err? {
        return Err(rangeOrError.error);
      }
      var dateRange := rangeOrError.value;
      var slot := FirstFit(rooms, dateRange);
      if slot.None? {
        return Err(NoAvailableRoom);
      }
      var room := rooms[slot.value];
      res := Reservation.New(nextId, dateRange, room, price, None);
      if res.Err? {
        assert false;
      }
      ghost var before := reservations;
      reservations := reservations + [res.value];
      nextId := nextId + 1;
      if start < end {
        BookedRangeIsUnavailable(old(room.reservations), res.value);
      }
      forall i | 0 <= i < |rooms| ensures rooms[i].Valid() {
        if rooms[i] != room {
          assert rooms[i].reservations == old(rooms[i].reservations);
        }
      }
      forall i | 0 <= i < |reservations| ensures reservations[i] in reservations[i].room.reservations {
        if i < |before| {
          assert reservations[i] == before[i];
        }
      }
    }

    /** Every room free for the range, in ascending id order. */
    function AvailableRooms(dateRange: DateRange): (free: seq<Room>)
      requires Valid()
      reads this, RoomSet()
      ensures forall room :: room in free ==> room in rooms && room.IsAvailable(dateRange)
      ensures forall room :: room in rooms && room.IsAvailable(dateRange) ==> room in free
      ensures RoomIdsIncrease(free)
    {
      FreeRoomsKeepOrder(rooms, dateRange);
      FreeRooms(rooms, dateRange)
    }

    /** Every reservation overlapping the range by the half-open endpoint rule, in creation order. */
    function ReservationsByDate(dateRange: DateRange): (hits: seq<Reservation>)
      requires Valid()
      reads this, RoomSet()
      ensures forall r :: r in hits ==> r in reservations && r.Overlaps(dateRange)
      ensures forall r :: r in reservations && r.Overlaps(dateRange) ==> r in hits
      ensures ReservationIdsIncrease(hits)
    {
      OverlappingKeepsOrder(reservations, dateRange);
      Overlapping(reservations, dateRange)
    }
  }

  /** A reservation's room id names its room in the inventory: rooms[room_id - 1] is that room. */
  lemma RoomIdIdentifiesRoom(b: Booker)
    requires b.Valid()
    ensures forall r :: r in b.reservations ==> 1 <= r.RoomId() <= RoomCount && b.rooms[r.RoomId() - 1] == r.room
  {
  }
}
