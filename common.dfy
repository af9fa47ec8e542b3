/** Vocabulary shared by every module: optional values, the error kinds the
    services raise, and the integer model of dates and times. */
module Common {

  datatype Option<T> = None | Some(value: T)

  /** One constructor per exception class the services throw. */
  datatype Error =
    | ResourceNotFound   // ResourceNotFoundException
    | BusinessNotActive  // BusinessNotActiveException
    | BookingConflict    // BookingConflictException
    | DuplicateResource  // DuplicateResourceException
    | Unauthorized       // UnauthorizedException
    | IllegalState       // IllegalStateException from the BusinessHours persist hook
    | DataIntegrity      // DataIntegrityViolationException: an insert the table's column constraints refuse

  datatype Result<T> = Ok(value: T) | Err(error: Error)

  /** A date is a day number; an instant is a number of minutes counted from the
      start of day 0; a time of day is a number of minutes after midnight. */
  const MinutesPerDay: int := 24 * 60

  /** Minutes between two consecutive candidate slot starts. */
  const SlotStep: int := 30

  /** Days of the week, 0 = Monday ... 6 = Sunday, in the order of DayOfWeek.values(). */
  type Weekday = d: int | 0 <= d < 7

  const Saturday: Weekday := 5
  const Sunday: Weekday := 6

  /** The weekday of a date; day 0 is a Monday. */
  function DayOfWeek(date: int): Weekday
  {
    date % 7
  }

  /** The instant at which a date begins. */
  function StartOfDay(date: int): int
  {
    date * MinutesPerDay
  }

  /** The instant of a time of day on a date. */
  function At(date: int, timeOfDay: int): int
  {
    StartOfDay(date) + timeOfDay
  }

  /** The half-open intervals [s1, e1) and [s2, e2) intersect. */
  predicate Overlaps(s1: int, e1: int, s2: int, e2: int)
  {
    s1 < e2 && s2 < e1
  }
}
