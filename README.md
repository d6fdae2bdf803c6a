# Hotel booking engine — a Dafny model

This project models the core of a small hotel-booking engine (Ruby). The
hotel has twenty rooms with ids 1..20. A booking is a half-open date range,
from a check-in day up to a check-out day that is not included. The engine:

- finds the first room, in ascending id order, whose existing reservations
  do not overlap the range (first fit);
- records the reservation on that room and in a master list, under
  sequential ids 1, 2, 3, ...;
- answers which rooms are free for a range and which reservations overlap it.

A reservation also checks availability itself when it is constructed. So
booking a clashing range directly on a room is refused too, not only through
the allocator.

The repository's implementation under `lib/` is not part of this model.
The behaviour is taken from what the repository's specs
(`spec/reservation_spec.rb`, `spec/booker_spec.rb`) assert. Two choices go
beyond what the specs check. The specs never build a range whose end comes
before its start: the model rejects one with `InvalidRange`. The specs
never check the order of query results: the model returns free rooms in
inventory order and overlapping reservations in creation order.

Files and modules:

- `outcomes.dfy` — `Outcomes`: `Option`, `Result` and the three errors
  (`InvalidRange`, `RoomUnavailable`, `NoAvailableRoom`). In Ruby, the last
  two are `ArgumentError`s.
- `dates.dfy` — `Dates`: the `DateRange` datatype. Dates are integer day
  numbers. It holds overlap, nights and a checked constructor, with lemmas
  that tie the endpoint rule to the nights the stays share.
- `hotel.dfy` — `Hotel`: `Block`, the immutable `Reservation` record (its
  constructor `Reservation.New`, `TotalPrice`, `Overlaps`, `RoomId`) and the
  `Room` class. `Room` has a `const id`, a `reservations` sequence that only
  grows, `IsAvailable` and `AddReservation`. `Room.Valid()` says that no two
  reservations on a room overlap by the half-open endpoint rule, and that
  each of them has a valid range and points back to the room.
- `booking.dfy` — `Booking`: the pure first-fit search `FirstFit`, shared by
  `OpenRoom` and `Reserve`; the filters `FreeRooms` and `Overlapping`; and the
  `Booker` class. `Booker.Valid()` says: rooms 1..20 in order; reservation ids
  1..n in creation order, with the counter at n + 1; and the room lists and
  the master list agree.
- `scenarios.dfy` — `BookingScenarios`: the booking sequences the specs walk
  through, written as client methods of the contracts above. Day n stands for
  n April 2019.

## Model

| member | source | states |
|---|---|---|
| Dates.DateRange.Overlaps | spec/reservation_spec.rb:103-145 | `overlap?`: any range sharing a night with the stay overlaps it (straddling the start, containing, contained, straddling the end); ranges that only touch at a boundary date do not; two zero-night ranges never do |
| Dates.DateRange.Nights | spec/reservation_spec.rb:78-90 | `nights` is non-negative for a valid range and positive exactly when the check-in night belongs to the stay |
| Dates.DateRange.Make | spec/reservation_spec.rb:7 | building a range succeeds exactly when start <= end; the range then holds those two dates; otherwise the error is InvalidRange |
| Dates.OverlapsIffSharedNight | spec/reservation_spec.rb:103-126 | for stays of at least one night, `overlap?` (start < other.end and other.start < end) holds exactly when some night belongs to both stays |
| Dates.OverlapsIsSymmetric | spec/reservation_spec.rb:123-125 | overlap does not depend on the order of the two ranges |
| Dates.TouchingRangesDoNotOverlap | spec/reservation_spec.rb:128-145 | a range ending on the day another starts overlaps it in neither direction |
| Dates.NonEmptyRangeOverlapsItself | spec/booker_spec.rb:83-90 | a stay of at least one night overlaps an identical stay, so booking the same range twice on one room is refused |
| Dates.SuiteOverlapCases | spec/reservation_spec.rb:103-145 | against 3-6 April: the seven ranges the spec passes overlap, and so do 3-4 and 3-6 April (the spec reassigns `range4` before use, so it never passes those two; they are added here as cases of the same rule); 1-2, 2-3, 6-7 and 7-8 April do not |
| Dates.NightsCountsNights | spec/reservation_spec.rb:78-90 | for a valid range, `nights` equals the number of nights the stay covers |
| Hotel.NoOverlap | spec/reservation_spec.rb:41-53 | an empty reservation list leaves every range free; a range that overlaps any listed reservation is not free |
| Hotel.Room.IsAvailable | spec/booker_spec.rb:69-81 | `is_available?`: a room without reservations is free for any range; a room holding a reservation that overlaps the range is not (also at reservation_spec.rb:44) |
| Hotel.Reservation.Overlaps | spec/reservation_spec.rb:93-145 | `Reservation#overlap?` holds exactly when the query range overlaps the reservation's stay, whichever way round they are compared |
| Hotel.Reservation.TotalPrice | spec/reservation_spec.rb:78-90 | `total_price` is non-negative for a valid stay at a non-negative rate, and zero for a zero-night stay |
| Hotel.TotalPriceCountsNights | spec/reservation_spec.rb:78-90 | for a valid stay, `total_price` is the nightly rate times the number of nights the stay covers |
| Booking.RoomIdIdentifiesRoom | spec/reservation_spec.rb:21-29 | for every reservation of a Booker, `room_id` lies in 1..20 and the inventory's room at that id is the reservation's room |
| Hotel.Reservation.BlockPaired | spec/reservation_spec.rb:31-38 | when it holds, `block` and `block_id` are both absent or both present, and `block_id` is the block's id |
| Hotel.NoOverlapAppend | spec/booker_spec.rb:69-81 | after one reservation is appended to a room, a range is free exactly when it was free before and misses the new reservation |
| Hotel.BookedRangeIsUnavailable | spec/booker_spec.rb:73-81 | once a stay of at least one night is on a room, `is_available?` is false for that stay |
| Hotel.Room.constructor | spec/reservation_spec.rb:6 | a new room has the given id and no reservations |
| Hotel.Room.AddReservation | spec/reservation_spec.rb:55-75 | appending a reservation already checked against the room keeps the room's reservations pairwise non-overlapping |
| Hotel.Reservation.New | spec/reservation_spec.rb:8-75 | for a valid range, succeeds exactly when the room was available for the range; on success it returns the record with the given id, range, room, price and block, with block and block_id both absent or both present, and appends it to the room; otherwise RoomUnavailable and the room is unchanged |
| Hotel.SuiteTotalPrice | spec/reservation_spec.rb:78-90 | 3 to 6 April at 200 a night costs 600 |
| Booking.FirstFit | spec/booker_spec.rb:60-81 | the result is the first room index free for the range (all earlier rooms clash), or none when every room clashes |
| Booking.FreeRooms | spec/booker_spec.rb:95-114 | an element of the result is a room of the list that is free for the range, and every such room is in the result |
| Booking.Overlapping | spec/booker_spec.rb:118-138 | an element of the result is a reservation of the list that overlaps the range, and every such reservation is in the result |
| Booking.FreeRoomsKeepOrder | spec/booker_spec.rb:95-105 | filtering rooms keeps ascending room ids |
| Booking.OverlappingKeepsOrder | spec/booker_spec.rb:118-131 | filtering reservations keeps ascending reservation ids (creation order) |
| Booking.Booker.constructor | spec/booker_spec.rb:5-23 | a new Booker has exactly 20 rooms with ids 1..20 in order, none with reservations, an empty reservation list, and the id counter at 1 |
| Booking.Booker.OpenRoom | spec/booker_spec.rb:60-71 | returns a room of the hotel that is free for the range, namely the first free one in room order and the lowest free id; fails with NoAvailableRoom exactly when no room is free |
| Booking.Booker.Reserve | spec/booker_spec.rb:26-90 | on the room `open_room` would give, books the range under the next id and appends it to both the room's list and the master list, after which the room is unavailable for the stay; InvalidRange or NoAvailableRoom otherwise, with nothing changed; other rooms untouched; the Booker invariant kept |
| Booking.Booker.AvailableRooms | spec/booker_spec.rb:94-114 | exactly the hotel's rooms free for the range, in ascending id order |
| Booking.Booker.ReservationsByDate | spec/booker_spec.rb:117-138 | exactly the reservations overlapping the range, in creation order |
| BookingScenarios.TwentyBookingsOfOneStay | spec/booker_spec.rb:51-57 | twenty bookings of one stay on a new Booker get ids 1..20 on twenty distinct rooms; then no room is available and a 21st booking fails with NoAvailableRoom |
| BookingScenarios.BookFirstFreeRoom | spec/booker_spec.rb:51-81 | when every room before position k clashes with the stay and room k is free, `reserve` lands on room k under the next id; room k is then taken for the stay, and every other room is unchanged |
| BookingScenarios.BookFullStay | spec/booker_spec.rb:83-114 | when every room clashes with a stay, `available_rooms` is empty and `reserve` fails with NoAvailableRoom, leaving the reservation list as it was |
| BookingScenarios.BackToBackStays | spec/reservation_spec.rb:41-75 | on a room holding 3-6 April, 3-5 April is refused; 1-3 and 6-7 April are booked and appended to the room |
| BookingScenarios.OpenRoomThenReserve | spec/booker_spec.rb:60-81 | the previewed room is free; the following booking gets id 1 on that same room, which is then unavailable for the stay |
| BookingScenarios.NoReservationsOnNewBooker | spec/booker_spec.rb:133-138 | a new Booker lists no reservation for any range |

## Left out

- Parsing of "DD-MM-YYYY" date strings: dates are integer day numbers, and the conversion is taken as given.
- Ruby type and duck-typing checks (`must_respond_to`, `must_be_instance_of`, `must_be_kind_of`): Dafny's types cover them. `room_id` is `Reservation.RoomId`.
- Block behaviour beyond its id: a block is `Block(id)`, and a reservation carries `block` and `block_id`. `Booker.Reserve` always books without a block.
- Booking.Booker.Reserve: the nightly price is a parameter. The default price used when `reserve` is called without one is in `lib/`, which is not part of this model.
- Hotel.Reservation.New: requires a range whose end is not before its start. `DateRange.Make` (used by `Reserve`) rejects an inverted range with InvalidRange before any reservation is built, so a reservation never receives one.
- Booking.Booker.Reserve: accepts a zero-night stay (start == end), at a total price of 0. Only start > end is refused. Zero-night ranges never overlap each other, so any number of identical zero-night stays can be booked on the same room, although such ranges are not meant as billable stays.
- Dates.OverlapsIffSharedNight: stated only for stays of at least one night. A zero-night range strictly inside a stay overlaps it by the endpoint rule, although the two share no night.
- Identity of reservations: a reservation is a value, so two records with equal fields are equal. Within one Booker, ids are distinct, so this never conflates two reservations there.
- Concurrency, persistence and pricing rules beyond a flat nightly rate: the engine is single-threaded and in memory.
