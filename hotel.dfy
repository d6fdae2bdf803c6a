/**
 * Rooms and the reservations booked on them. A reservation is an immutable
 * record that keeps a reference to its room; a room keeps the reservations
 * made on it, in booking order, and only ever appends to that list.
 */
module Hotel {
  import opened Outcomes
  import opened Dates

  /** A group of reservations made together; only its id is modelled. */
  datatype Block = Block(id: int)

  datatype Reservation = Reservation(
    id: int,
    dateRange: DateRange,
    room: Room,
    price: int,           // nightly rate
    block: Option<Block>,
    blockId: Option<int>)
  {
    /** The block and its id are either both absent or both present and agreeing. */
    function BlockPaired(): (b: bool)
      ensures b ==> (block.None? <==> blockId.None?)
      ensures b && block.Some? ==> blockId == Some(block.value.id)
    {
      match block
      case None => blockId.None?
      case Some(b) => blockId == Some(b.id)
    }

    /** The id of the room the reservation is booked on. */
    function RoomId(): int {
      room.id
    }

    /** The reservation's stay and `other` overlap, whichever way round they are compared. */
    function Overlaps(other: DateRange): (b: bool)
      ensures b <==> other.Overlaps(dateRange)
    {
      dateRange.Overlaps(other)
    }

    /** What the whole stay costs: the nightly rate times the nights. */
    function TotalPrice(): (t: int)
      ensures dateRange.Valid() && price >= 0 ==> t >= 0
      ensures dateRange.start == dateRange.end ==> t == 0
    {
      price * dateRange.Nights()
    }

    /**
     * Books `dateRange` on `room`: refused when the room already holds an
     * overlapping reservation, otherwise the new reservation is appended to
     * the room's list.
     */
    static method New(id: int, dateRange: DateRange, room: Room, price: int, block: Option<Block>)
      returns (res: Result<Reservation>)
      requires dateRange.Valid() && room.Valid()
      modifies room
      ensures room.Valid()
      ensures res.Ok? <==> old(room.IsAvailable(dateRange))
      ensures res.Ok? ==>
        && res.value.id == id && res.value.dateRange == dateRange && res.value.room == room
        && res.value.price == price && res.value.block == block && res.value.BlockPaired()
        && room.reservations == old(room.reservations) + [res.value]
      ensures res.Err? ==> res.error == RoomUnavailable && room.reservations == old(room.reservations)
    {
      if !room.IsAvailable(dateRange) {
        return Err(RoomUnavailable);
      }
      var blockId := match block case None => None case Some(b) => Some(b.id);
      var made := Reservation(id, dateRange, room, price, block, blockId);
      room.AddReservation(made);
      res := Ok(made);
    }
  }

  /**
   * No reservation of `booked` overlaps `dateRange` by the half-open endpoint
   * rule, in either direction; an empty list leaves every range free.
   */
  function NoOverlap(booked: seq<Reservation>, dateRange: DateRange): (free: bool)
    ensures booked == [] ==> free
    ensures forall i :: 0 <= i < |booked| && dateRange.Overlaps(booked[i].dateRange) ==> !free
  {
    forall i :: 0 <= i < |booked| ==> !booked[i].Overlaps(dateRange)
  }

  /** Appending one reservation leaves a range free exactly when it was free and misses the new one. */
  lemma NoOverlapAppend(booked: seq<Reservation>, r: Reservation, dateRange: DateRange)
    ensures NoOverlap(booked + [r], dateRange) <==> NoOverlap(booked, dateRange) && !r.Overlaps(dateRange)
  {
    assert (booked + [r])[|booked|] == r;
    assert forall i :: 0 <= i < |booked| ==> (booked + [r])[i] == booked[i];
  }

  class Room {
    const id: int
    var reservations: seq<Reservation>

    /**
     * Every reservation on the room points back to it and has a valid range,
     * and no two of them overlap by the half-open endpoint rule.
     */
    ghost predicate Valid()
      reads this
    {
      && (forall r :: r in reservations ==> r.room == this && r.BlockPaired() && r.dateRange.Valid())
      && (forall i, j :: 0 <= i < j < |reservations| ==>
            !reservations[i].dateRange.Overlaps(reservations[j].dateRange))
    }

    constructor (id: int)
      ensures this.id == id && reservations == [] && Valid()
    {
      this.id := id;
      reservations := [];
    }

    /** No reservation on the room overlaps the range; a room without reservations is free for any range. */
    function IsAvailable(dateRange: DateRange): (free: bool)
      reads this
      ensures reservations == [] ==> free
      ensures forall i :: 0 <= i < |reservations| && reservations[i].Overlaps(dateRange) ==> !free
    {
      NoOverlap(reservations, dateRange)
    }

    /** Registers a reservation already checked against this room's bookings. */
    method AddReservation(r: Reservation)
      requires Valid() && r.room == this && r.BlockPaired() && r.dateRange.Valid() && IsAvailable(r.dateRange)
      modifies this
      ensures Valid() && reservations == old(reservations) + [r]
    {
      reservations := reservations + [r];
      forall i, j | 0 <= i < j < |reservations|
        ensures !reservations[i].dateRange.Overlaps(reservations[j].dateRange)
      {
        if j == |reservations| - 1 {
          assert !reservations[i].Overlaps(r.dateRange);
          OverlapsIsSymmetric(reservations[i].dateRange, r.dateRange);
        }
      }
    }
  }

  /** After a stay of at least one night is booked on a room, the room is no longer available for it. */
  lemma BookedRangeIsUnavailable(booked: seq<Reservation>, r: Reservation)
    requires r.dateRange.start < r.dateRange.end
    ensures !NoOverlap(booked + [r], r.dateRange)
  {
    assert (booked + [r])[|booked|] == r;
  }

  /** 3 to 6 April at 200 a night costs 600 (day n stands for n April 2019). */
  lemma SuiteTotalPrice(room: Room)
    ensures Reservation(1, DateRange(3, 6), room, 200, None, None).TotalPrice() == 600
  {
  }

  /** For a valid stay, the total price is the nightly rate times the nights the stay covers. */
  lemma TotalPriceCountsNights(r: Reservation)
    requires r.dateRange.Valid()
    ensures r.TotalPrice() == r.price * |r.dateRange.NightSet()|
  {
    NightsCountsNights(r.dateRange);
  }
}
