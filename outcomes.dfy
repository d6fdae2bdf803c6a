/** Optional values, results and the failures the booking engine reports. */
module Outcomes {

  datatype Option<+T> = None | Some(value: T)

  /** The three failures of the engine; all are argument errors to the caller. */
  datatype Error =
    | InvalidRange      // a date range whose end lies before its start
    | RoomUnavailable   // a reservation over a range already booked on its room
    | NoAvailableRoom   // no room of the hotel is free for the requested range

  datatype Result<+T> = Ok(value: T) | Err(error: Error)
}
