/** Values shared by every layer of the back end: optional values, results, and the
    exceptions the services and the database raise. */
module Common {

  /** PHP's nullable return (`?Hotel`, `?HotelRoomConfiguration`). */
  datatype Option<T> = None | Some(value: T)

  /** A call that either returns a value or throws. */
  datatype Result<T> = Ok(value: T) | Err(error: Error)

  /** Why the database refused a write (a `QueryException`). */
  datatype Violation =
    | DuplicateKey       // the (hotel_id, room_type_id, accommodation_id) unique index
    | MissingReference   // a foreign key to hotels, room_types or accommodations

  /** What a thrown exception other than a validation error reports. */
  datatype Reason =
    | MissingKey(key: string)                  // an undefined array key, which the framework turns into an exception
    | RoomTypeNotFound(name: string)           // HotelService::create: no room type with that exact name
    | AccommodationNotFound(name: string)      // HotelService::create: no accommodation with that exact name
    | BadExceptionArgument                     // `new ValidationException('...')`: built from a string, so PHP raises a TypeError

  /** An exception as the caller of a service sees it. */
  datatype Error =
    | Invalid(key: string)        // ValidationException::withMessages([key => message])
    | Query(violation: Violation) // QueryException from a refused write
    | Thrown(reason: Reason)      // any other exception
}
