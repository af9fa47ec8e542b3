/** BookingService: the public booking engine. A customer asks for the free slots
    of a day and books one; the booking is admitted only after the business, the
    service, the start instant and the overlap checks pass. */
module BookingService {
  import opened Common
  import opened Entities
  import opened Requests
  import opened BusinessHoursModel
  import opened BookingRepository
  import opened Store
  import opened BusinessHoursService

  /** One entry of the slot list: its instants and whether it can be booked. */
  datatype TimeSlot = TimeSlot(startTime: int, endTime: int, available: bool)

  /** The answer of the slot query for one date. */
  datatype AvailableTimes = AvailableTimes(date: int, timeSlots: seq<TimeSlot>)

  // ================================================================ conflicts

  /** A booking that `hasConflict` counts against the slot [slotStart, slotEnd):
      any status but CANCELLED, and a half-open overlap. */
  predicate Blocks(b: Booking, slotStart: int, slotEnd: int)
  {
    b.status != Cancelled && Overlaps(slotStart, slotEnd, b.startTime, b.endTime)
  }

  predicate Conflicts(existing: seq<Booking>, slotStart: int, slotEnd: int)
  {
    exists b :: b in existing && Blocks(b, slotStart, slotEnd)
  }

  /** `hasConflict`: walks the fetched bookings, skipping the cancelled ones, and
      stops at the first overlap. */
  method HasConflict(slotStart: int, slotEnd: int, existing: seq<Booking>) returns (conflict: bool)
    ensures conflict <==> exists b :: b in existing && b.status != Cancelled
                                      && Overlaps(slotStart, slotEnd, b.startTime, b.endTime)
  {
    for i := 0 to |existing|
      invariant forall j :: 0 <= j < i ==> !Blocks(existing[j], slotStart, slotEnd)
    {
      var booking := existing[i];
      if booking.status == Cancelled {
        continue;
      }
      if slotStart < booking.endTime && slotEnd > booking.startTime {
        return true;
      }
    }
    return false;
  }

  // ================================================================ the slot grid

  /** The part of a day the slot loop walks: opening and closing time and the
      optional break, as times of day. */
  datatype DayWindow = DayWindow(open: int, close: int, breakStart: Option<int>, breakEnd: Option<int>)

  /** The window of a day from its weekday record: the record's times where it
      has them, 09:00 to 18:00 without a break where there is no record, and
      09:00 or 18:00 in place of a missing open or close time. */
  function WindowFor(hours: Option<HoursRow>): DayWindow
  {
    var open := if hours.Some? && hours.value.openTime.Some? then hours.value.openTime.value else 9 * 60;
    var close := if hours.Some? && hours.value.closeTime.Some? then hours.value.closeTime.value else 18 * 60;
    var breakStart := if hours.Some? then hours.value.breakStartTime else None;
    var breakEnd := if hours.Some? then hours.value.breakEndTime else None;
    DayWindow(open, close, breakStart, breakEnd)
  }

  /** The k-th candidate start from a first one, 30 minutes apart. */
  function Candidate(first: int, k: nat): int
  {
    first + SlotStep * k
  }

  /** The stop test: a slot from time of day t would end after closing. */
  predicate EndsAfterClose(t: int, duration: int, close: int)
  {
    t + duration > close
  }

  /** A candidate passes both the loop guard and the stop test. */
  predicate Fits(t: int, duration: int, close: int)
  {
    t < close && !EndsAfterClose(t, duration, close)
  }

  /** How many consecutive candidates from t fit. */
  function FitCount(t: int, duration: int, close: int): nat
    decreases close - t
  {
    if Fits(t, duration, close) then 1 + FitCount(t + SlotStep, duration, close) else 0
  }

  /** The break test: only the slot's start is compared with [breakStart, breakEnd). */
  predicate DuringBreak(t: int, w: DayWindow)
  {
    w.breakStart.Some? && w.breakEnd.Some? && w.breakStart.value <= t < w.breakEnd.value
  }

  /** The slot the loop emits for the candidate at time of day t. */
  function SlotAt(date: int, w: DayWindow, t: int, duration: int, existing: seq<Booking>, now: int): TimeSlot
  {
    var slotStart := At(date, t);
    var slotEnd := slotStart + duration;
    TimeSlot(slotStart, slotEnd, !DuringBreak(t, w) && !Conflicts(existing, slotStart, slotEnd) && !(slotStart < now))
  }

  /** The slots of the candidates from t on, up to the first one that does not fit. */
  function SlotsFrom(date: int, w: DayWindow, t: int, duration: int, existing: seq<Booking>, now: int): seq<TimeSlot>
    decreases w.close - t
  {
    if Fits(t, duration, w.close) then
      [SlotAt(date, w, t, duration, existing, now)] + SlotsFrom(date, w, t + SlotStep, duration, existing, now)
    else
      []
  }

  /** The candidates that fit are exactly the first FitCount ones: once a
      candidate does not fit, no later one does. */
  lemma {:induction false} FitCountExact(t: int, duration: int, close: int, k: nat)
    ensures k < FitCount(t, duration, close) <==> Fits(Candidate(t, k), duration, close)
    decreases close - t
  {
    if Fits(t, duration, close) && k > 0 {
      FitCountExact(t + SlotStep, duration, close, k - 1);
      assert Candidate(t + SlotStep, k - 1) == Candidate(t, k);
    }
  }

  /** The k-th slot is the slot of the k-th candidate, and there are FitCount of them. */
  lemma {:induction false} SlotsFromShape(date: int, w: DayWindow, t: int, duration: int, existing: seq<Booking>, now: int)
    ensures |SlotsFrom(date, w, t, duration, existing, now)| == FitCount(t, duration, w.close)
    ensures forall k :: 0 <= k < |SlotsFrom(date, w, t, duration, existing, now)| ==>
      SlotsFrom(date, w, t, duration, existing, now)[k] == SlotAt(date, w, Candidate(t, k), duration, existing, now)
    decreases w.close - t
  {
    if Fits(t, duration, w.close) {
      SlotsFromShape(date, w, t + SlotStep, duration, existing, now);
      var r := SlotsFrom(date, w, t, duration, existing, now);
      forall k | 0 < k < |r|
        ensures r[k] == SlotAt(date, w, Candidate(t, k), duration, existing, now)
      {
        assert Candidate(t + SlotStep, k - 1) == Candidate(t, k);
      }
    }
  }

  /** The slot loop of `getAvailableTimeSlots`. Instants and times of day are
      compared without wrap-around at midnight. */
  method GenerateSlots(date: int, w: DayWindow, duration: int, existing: seq<Booking>, now: int)
    returns (slots: seq<TimeSlot>)
    ensures slots == SlotsFrom(date, w, w.open, duration, existing, now)
    ensures forall k: nat :: k < |slots| <==> Fits(Candidate(w.open, k), duration, w.close)
    ensures forall k :: 0 <= k < |slots| ==>
      && slots[k].startTime == At(date, Candidate(w.open, k))
      && slots[k].endTime == slots[k].startTime + duration
      && slots[k].endTime <= At(date, w.close)
      && (slots[k].available <==>
            && !DuringBreak(Candidate(w.open, k), w)
            && !(exists b :: b in existing && b.status != Cancelled
                              && Overlaps(slots[k].startTime, slots[k].endTime, b.startTime, b.endTime))
            && now <= slots[k].startTime)
    ensures forall i, j :: 0 <= i < j < |slots| ==> slots[i].startTime < slots[j].startTime
  {
    slots := [];
    var currentTime := w.open;
    while currentTime < w.close
      invariant currentTime == Candidate(w.open, |slots|)
      invariant slots + SlotsFrom(date, w, currentTime, duration, existing, now)
             == SlotsFrom(date, w, w.open, duration, existing, now)
      decreases w.close - currentTime
    {
      var slotStart := At(date, currentTime);
      var slotEnd := slotStart + duration;
      var isDuringBreak := false;
      if w.breakStart.Some? && w.breakEnd.Some? {
        isDuringBreak := !(currentTime < w.breakStart.value) && currentTime < w.breakEnd.value;
      }
      var isAvailable := false;
      if !isDuringBreak {
        var conflict := HasConflict(slotStart, slotEnd, existing);
        isAvailable := !conflict;
      }
      if slotStart < now {
        isAvailable := false;
      }
      if EndsAfterClose(currentTime, duration, w.close) {
        break;
      }
      slots := slots + [TimeSlot(slotStart, slotEnd, isAvailable)];
      currentTime := currentTime + SlotStep;
    }
    SlotsFromShape(date, w, w.open, duration, existing, now);
    forall k: nat
      ensures k < |slots| <==> Fits(Candidate(w.open, k), duration, w.close)
    {
      FitCountExact(w.open, duration, w.close, k);
    }
  }

  /** The corrected loop stops: its last slot starts before closing, so there
      are at most as many slots as 30-minute steps fit between open and close. */
  lemma SlotListBounded(date: int, w: DayWindow, duration: int, existing: seq<Booking>, now: int)
    ensures var n := |SlotsFrom(date, w, w.open, duration, existing, now)|;
      n == 0 || SlotStep * (n - 1) < w.close - w.open
  {
    var n := |SlotsFrom(date, w, w.open, duration, existing, now)|;
    SlotsFromShape(date, w, w.open, duration, existing, now);
    if n > 0 {
      FitCountExact(w.open, duration, w.close, n - 1);
    }
  }

  /** Only a slot's start is tested against the break: a one-hour slot from
      11:30 stays available across a break from 12:00 to 13:00. */
  lemma SlotStraddlingBreakStartStaysAvailable(date: int)
    ensures SlotAt(date, DayWindow(540, 1080, Some(720), Some(780)), 690, 60, [], StartOfDay(date)).available
  {
  }

  // ================================================================ the loop as written

  /** `LocalTime.plusMinutes`: time-of-day arithmetic wraps around at midnight. */
  function PlusMinutesOfDay(t: int, minutes: int): int
  {
    (t + minutes) % MinutesPerDay
  }

  /** The stop test as the source writes it: the slot's end is taken as a time of
      day, so an end after midnight compares as early in the day. */
  predicate EndsAfterCloseAsWritten(t: int, duration: int, close: int)
  {
    PlusMinutesOfDay(t, duration) > close
  }

  /** The slot loop as written, for at most `fuel` iterations: the stop test is
      the one above and the candidate advances with the wrapping `plusMinutes`. */
  function SlotsAsWritten(date: int, w: DayWindow, t: int, duration: int, existing: seq<Booking>, now: int,
                          fuel: nat): seq<TimeSlot>
    decreases fuel
  {
    if fuel == 0 || !(t < w.close) || EndsAfterCloseAsWritten(t, duration, w.close) then []
    else
      [SlotAt(date, w, t, duration, existing, now)]
        + SlotsAsWritten(date, w, PlusMinutesOfDay(t, SlotStep), duration, existing, now, fuel - 1)
  }

  /** A 480-minute service from 18:00, with closing at 20:00, ends at 02:00 the
      next day: the loop as written offers that slot, the corrected loop none. */
  lemma LateSlotKeptAsWritten(date: int)
    ensures var w := DayWindow(18 * 60, 20 * 60, None, None);
      && SlotsAsWritten(date, w, w.open, 480, [], StartOfDay(date), 1)
           == [TimeSlot(At(date, 18 * 60), At(date, 26 * 60), true)]
      && At(date, 26 * 60) > At(date, w.close)
      && SlotsFrom(date, w, w.open, 480, [], StartOfDay(date)) == []
  {
  }

  /** Open from 00:00 to 23:59 with a 5-minute service, every candidate passes
      both tests and the one after 23:30 wraps to 00:00: whatever the bound, the
      loop as written is still emitting slots when it is reached. */
  lemma {:induction false} WrapAroundNeverStops(date: int, existing: seq<Booking>, now: int, j: nat, fuel: nat)
    requires j < 48
    ensures |SlotsAsWritten(date, DayWindow(0, 1439, None, None), SlotStep * j, 5, existing, now, fuel)| == fuel
    decreases fuel
  {
    if fuel > 0 {
      var t := SlotStep * j;
      assert PlusMinutesOfDay(t, 5) == t + 5;
      var next: nat := if j == 47 then 0 else j + 1;
      assert PlusMinutesOfDay(t, SlotStep) == SlotStep * next;
      WrapAroundNeverStops(date, existing, now, next, fuel - 1);
    }
  }

  /** No candidate the loop reaches wraps: the first candidate that does not fit
      is still before midnight, and if it is before closing the slot it would
      give ends before midnight too. */
  predicate NoMidnightWrap(t: int, duration: int, close: int)
  {
    var last := Candidate(t, FitCount(t, duration, close));
    0 <= t && 0 <= duration && close < MinutesPerDay
    && last < MinutesPerDay && (last < close ==> last + duration < MinutesPerDay)
  }

  /** Where nothing wraps, the loop as written and the corrected loop give the
      same slots. */
  lemma {:induction false} AsWrittenAgreesWithoutWrap(date: int, w: DayWindow, t: int, duration: int,
                                                      existing: seq<Booking>, now: int, fuel: nat)
    requires NoMidnightWrap(t, duration, w.close)
    requires fuel > FitCount(t, duration, w.close)
    ensures SlotsAsWritten(date, w, t, duration, existing, now, fuel) == SlotsFrom(date, w, t, duration, existing, now)
    decreases w.close - t
  {
    if Fits(t, duration, w.close) {
      assert Candidate(t, FitCount(t, duration, w.close))
          == Candidate(t + SlotStep, FitCount(t + SlotStep, duration, w.close));
      assert PlusMinutesOfDay(t, duration) == t + duration;
      assert PlusMinutesOfDay(t, SlotStep) == t + SlotStep;
      AsWrittenAgreesWithoutWrap(date, w, t + SlotStep, duration, existing, now, fuel - 1);
    } else if t < w.close {
      assert PlusMinutesOfDay(t, duration) == t + duration;
    }
  }

  // ================================================================ the slot query

  /** `getAvailableTimeSlots` on a store snapshot: business by slug, active, open
      that day (an empty list otherwise, before the service is looked at),
      service of that business and active, then the slots of the day's window
      against the bookings that start on that date. */
  ghost function AvailableTimeSlots(s: StoreState, businessSlug: string, date: int, serviceId: nat, now: int)
    : Result<AvailableTimes>
  {
    match LookupSlug(s.businesses, businessSlug)
    case None => Err(ResourceNotFound)
    case Some(business) =>
      if !business.active then Err(BusinessNotActive)
      else if !IsBusinessOpen(s.closedDates, s.hours, business.id, date) then Ok(AvailableTimes(date, []))
      else
        match ServiceOf(s.services, serviceId, business.id)
        case None => Err(ResourceNotFound)
        case Some(service) =>
          if !service.active then Err(ResourceNotFound)
          else
            var existing := FindByBusinessIdAndStartTimeBetween(s.bookings, business.id, StartOfDay(date), StartOfDay(date + 1));
            var w := WindowFor(GetHoursForDay(s.hours, business.id, DayOfWeek(date)));
            Ok(AvailableTimes(date, SlotsFrom(date, w, w.open, service.durationMinutes, existing, now)))
  }

  method GetAvailableTimeSlots(db: Store, businessSlug: string, date: int, serviceId: nat, now: int)
    returns (r: Result<AvailableTimes>)
    requires db.Valid()
    ensures r == AvailableTimeSlots(db.State(), businessSlug, date, serviceId, now)
  {
    var found := FindBySlug(db, businessSlug);
    if found.None? {
      return Err(ResourceNotFound);
    }
    var business := found.value;
    if !business.active {
      return Err(BusinessNotActive);
    }
    if !IsBusinessOpen(db.closedDates, db.hours, business.id, date) {
      return Ok(AvailableTimes(date, []));
    }
    var service := ServiceOf(db.services, serviceId, business.id);
    if service.None? {
      return Err(ResourceNotFound);
    }
    if !service.value.active {
      return Err(ResourceNotFound);
    }
    var existing := FindByBusinessIdAndStartTimeBetween(db.bookings, business.id, StartOfDay(date), StartOfDay(date + 1));
    var w := WindowFor(GetHoursForDay(db.hours, business.id, DayOfWeek(date)));
    var slots := GenerateSlots(date, w, service.value.durationMinutes, existing, now);
    r := Ok(AvailableTimes(date, slots));
  }

  /** On a closed day the list is empty, whatever the service id: even an
      unknown service is not reported. */
  lemma ClosedDayHasNoSlots(s: StoreState, businessSlug: string, date: int, serviceId: nat, now: int)
    requires LookupSlug(s.businesses, businessSlug).Some?
    requires LookupSlug(s.businesses, businessSlug).value.active
    requires !IsBusinessOpen(s.closedDates, s.hours, LookupSlug(s.businesses, businessSlug).value.id, date)
    ensures AvailableTimeSlots(s, businessSlug, date, serviceId, now) == Ok(AvailableTimes(date, []))
  {
  }

  /** Once the hook has normalised the stored records, a day that is open has its
      own opening and closing time: the 09:00 to 18:00 fallback is never used. */
  lemma FallbackUnreachableWhenOpen(s: StoreState, businessId: nat, date: int)
    requires ValidState(s)
    requires IsBusinessOpen(s.closedDates, s.hours, businessId, date)
    ensures var h := GetHoursForDay(s.hours, businessId, DayOfWeek(date));
      && h.Some? && h.value.isOpen && h.value.openTime.Some? && h.value.closeTime.Some?
      && WindowFor(h) == DayWindow(h.value.openTime.value, h.value.closeTime.value,
                                   h.value.breakStartTime, h.value.breakEndTime)
  {
    var key := (businessId, DayOfWeek(date));
    assert key in s.hours && Normalized(s.hours[key]);
  }

  /** On a valid store the day's window lies within the day. */
  lemma WindowWithinDay(s: StoreState, businessId: nat, day: Weekday)
    requires ValidState(s)
    ensures var w := WindowFor(GetHoursForDay(s.hours, businessId, day));
      0 <= w.open && w.close < MinutesPerDay
  {
    if (businessId, day) in s.hours {
      assert TimesOfDay(s.hours[(businessId, day)]);
    }
  }

  /** Every listed slot starts on the requested date, ends after it starts and no
      later than the start of the next day. */
  lemma SlotsLieWithinDay(s: StoreState, businessSlug: string, date: int, serviceId: nat, now: int, k: nat)
    requires ValidState(s)
    requires AvailableTimeSlots(s, businessSlug, date, serviceId, now).Ok?
    requires k < |AvailableTimeSlots(s, businessSlug, date, serviceId, now).value.timeSlots|
    ensures var slot := AvailableTimeSlots(s, businessSlug, date, serviceId, now).value.timeSlots[k];
      StartOfDay(date) <= slot.startTime < slot.endTime < StartOfDay(date + 1)
  {
    var business := LookupSlug(s.businesses, businessSlug).value;
    var service := ServiceOf(s.services, serviceId, business.id).value;
    var existing := FindByBusinessIdAndStartTimeBetween(s.bookings, business.id, StartOfDay(date), StartOfDay(date + 1));
    var w := WindowFor(GetHoursForDay(s.hours, business.id, DayOfWeek(date)));
    WindowWithinDay(s, business.id, DayOfWeek(date));
    SlotsFromShape(date, w, w.open, service.durationMinutes, existing, now);
    FitCountExact(w.open, service.durationMinutes, w.close, k);
  }

  // ================================================================ admission

  /** The request fields the service dereferences, guaranteed by the @NotNull and
      @NotBlank constraints. */
  predicate RequestComplete(request: BookingRequest)
  {
    request.serviceId.Some? && request.startTime.Some?
    && request.customerName.Some? && request.customerPhone.Some?
  }

  /** A valid request is complete. */
  lemma ValidRequestIsComplete(request: BookingRequest, validatedAt: int)
    requires BookingRequestValid(request, validatedAt)
    ensures RequestComplete(request)
  {
  }

  /** `createBooking` once the business is found, check by check: active, service
      of that business and active, not in the past (`startTime < now`), no
      overlapping CONFIRMED booking; then the new CONFIRMED booking, numbered
      after the last one, ending the service's duration after its start. */
  function Admit(business: Business, services: map<nat, Service>, bookings: seq<Booking>, serviceId: nat,
                 startTime: int, customerName: string, customerPhone: string, now: int): Result<Booking>
  {
    if !business.active then Err(BusinessNotActive)
    else
      match ServiceOf(services, serviceId, business.id)
      case None => Err(ResourceNotFound)
      case Some(service) =>
        if !service.active then Err(ResourceNotFound)
        else
          var endTime := startTime + service.durationMinutes;
          if startTime < now then Err(BookingConflict)
          else if FindOverlappingBookings(bookings, business.id, startTime, endTime) != [] then Err(BookingConflict)
          else Ok(Booking(|bookings| + 1, business.id, serviceId, startTime, endTime, customerName, customerPhone, Confirmed))
  }

  /** `createBooking` on a store snapshot. */
  ghost function CreateBookingOutcome(s: StoreState, businessSlug: string, request: BookingRequest, now: int): Result<Booking>
    requires RequestComplete(request)
  {
    match LookupSlug(s.businesses, businessSlug)
    case None => Err(ResourceNotFound)
    case Some(business) =>
      Admit(business, s.services, s.bookings, request.serviceId.value, request.startTime.value,
            request.customerName.value, request.customerPhone.value, now)
  }

  /** An admitted booking is the request's, for the service's business, CONFIRMED,
      and ends exactly the service's duration after it starts. */
  lemma AdmittedBookingShape(business: Business, services: map<nat, Service>, bookings: seq<Booking>, serviceId: nat,
                             startTime: int, customerName: string, customerPhone: string, now: int)
    requires Admit(business, services, bookings, serviceId, startTime, customerName, customerPhone, now).Ok?
    ensures var b := Admit(business, services, bookings, serviceId, startTime, customerName, customerPhone, now).value;
      && serviceId in services && services[serviceId].businessId == business.id && services[serviceId].active
      && b == Booking(|bookings| + 1, business.id, serviceId, startTime, startTime + services[serviceId].durationMinutes,
                      customerName, customerPhone, Confirmed)
  {
  }

  /** Admission succeeds exactly when the business is active, the service is an
      active one of that business, the start is not before now and no CONFIRMED
      booking of the business overlaps the new one. */
  lemma AdmitSucceedsExactly(business: Business, services: map<nat, Service>, bookings: seq<Booking>, serviceId: nat,
                             startTime: int, customerName: string, customerPhone: string, now: int)
    ensures Admit(business, services, bookings, serviceId, startTime, customerName, customerPhone, now).Ok? <==>
      && business.active
      && serviceId in services && services[serviceId].businessId == business.id && services[serviceId].active
      && now <= startTime
      && forall b :: b in bookings && b.businessId == business.id && b.status == Confirmed
           ==> !Overlaps(b.startTime, b.endTime, startTime, startTime + services[serviceId].durationMinutes)
  {
    if business.active && serviceId in services && services[serviceId].businessId == business.id {
      var endTime := startTime + services[serviceId].durationMinutes;
      var overlapping := FindOverlappingBookings(bookings, business.id, startTime, endTime);
      if overlapping != [] {
        assert overlapping[0] in overlapping;
      }
    }
  }

  /** Admission never double-books: the new CONFIRMED booking overlaps no
      CONFIRMED booking of its business. */
  lemma AdmitPreservesNoDoubleBooking(business: Business, services: map<nat, Service>, bookings: seq<Booking>,
                                      serviceId: nat, startTime: int, customerName: string, customerPhone: string, now: int)
    requires NoDoubleBooking(bookings)
    requires Admit(business, services, bookings, serviceId, startTime, customerName, customerPhone, now).Ok?
    ensures NoDoubleBooking(bookings + [Admit(business, services, bookings, serviceId, startTime,
                                              customerName, customerPhone, now).value])
  {
    var b := Admit(business, services, bookings, serviceId, startTime, customerName, customerPhone, now).value;
    var all := bookings + [b];
    forall i, j | 0 <= i < j < |all| && all[i].businessId == all[j].businessId
                  && all[i].status == Confirmed && all[j].status == Confirmed
      ensures !Overlaps(all[i].startTime, all[i].endTime, all[j].startTime, all[j].endTime)
    {
      if j == |bookings| {
        assert all[i] in bookings;
        assert all[i] !in FindOverlappingBookings(bookings, business.id, b.startTime, b.endTime);
      } else {
        assert all[i] == bookings[i] && all[j] == bookings[j];
      }
    }
  }

  /** One booking attempt: the business slug, the request and the instant of the call. */
  datatype Attempt = Attempt(businessSlug: string, request: BookingRequest, now: int)

  /** The store after a series of booking attempts, one after the other. */
  ghost function AfterAttempts(s: StoreState, attempts: seq<Attempt>): StoreState
    requires forall i :: 0 <= i < |attempts| ==> RequestComplete(attempts[i].request)
    decreases |attempts|
  {
    if attempts == [] then s
    else
      var a := attempts[0];
      var next := match CreateBookingOutcome(s, a.businessSlug, a.request, a.now)
                  case Ok(b) => s.(bookings := s.bookings + [b])
                  case Err(_) => s;
      AfterAttempts(next, attempts[1..])
  }

  /** However many attempts are made, one after the other, no two CONFIRMED
      bookings of a business overlap afterwards. */
  lemma {:induction false} AttemptsNeverDoubleBook(s: StoreState, attempts: seq<Attempt>)
    requires NoDoubleBooking(s.bookings)
    requires forall i :: 0 <= i < |attempts| ==> RequestComplete(attempts[i].request)
    ensures NoDoubleBooking(AfterAttempts(s, attempts).bookings)
    decreases |attempts|
  {
    if attempts != [] {
      var a := attempts[0];
      var next := match CreateBookingOutcome(s, a.businessSlug, a.request, a.now)
                  case Ok(b) => s.(bookings := s.bookings + [b])
                  case Err(_) => s;
      if CreateBookingOutcome(s, a.businessSlug, a.request, a.now).Ok? {
        var business := LookupSlug(s.businesses, a.businessSlug).value;
        AdmitPreservesNoDoubleBooking(business, s.services, s.bookings, a.request.serviceId.value,
                                      a.request.startTime.value, a.request.customerName.value,
                                      a.request.customerPhone.value, a.now);
      }
      AttemptsNeverDoubleBook(next, attempts[1..]);
    }
  }

  /** `createBooking`. Nothing is stored unless every check passes; then exactly
      the admitted booking is appended. */
  method CreateBooking(db: Store, businessSlug: string, request: BookingRequest, now: int) returns (r: Result<Booking>)
    requires db.Valid() && RequestComplete(request)
    modifies db
    ensures db.Valid()
    ensures r == CreateBookingOutcome(old(db.State()), businessSlug, request, now)
    ensures r.Ok? ==> db.State() == old(db.State()).(bookings := old(db.bookings) + [r.value])
    ensures r.Err? ==> db.State() == old(db.State())
  {
    var found := FindBySlug(db, businessSlug);
    if found.None? {
      return Err(ResourceNotFound);
    }
    var business := found.value;
    if !business.active {
      return Err(BusinessNotActive);
    }
    var service := ServiceOf(db.services, request.serviceId.value, business.id);
    if service.None? {
      return Err(ResourceNotFound);
    }
    if !service.value.active {
      return Err(ResourceNotFound);
    }
    var startTime := request.startTime.value;
    var endTime := startTime + service.value.durationMinutes;
    if startTime < now {
      return Err(BookingConflict);
    }
    var overlapping := FindOverlappingBookings(db.bookings, business.id, startTime, endTime);
    if overlapping != [] {
      return Err(BookingConflict);
    }
    var booking := Booking(|db.bookings| + 1, business.id, request.serviceId.value, startTime, endTime,
                           request.customerName.value, request.customerPhone.value, Confirmed);
    AdmitPreservesNoDoubleBooking(business, db.services, db.bookings, request.serviceId.value, startTime,
                                  request.customerName.value, request.customerPhone.value, now);
    ValidWithBooking(db.State(), booking);
    db.bookings := db.bookings + [booking];
    r := Ok(booking);
  }

  /** A slot shown as available can be booked, provided no CONFIRMED booking of
      the business that starts before the date runs into it. */
  lemma AvailableSlotIsAdmissible(s: StoreState, businessSlug: string, date: int, serviceId: nat, now: int, k: nat,
                                  customerName: string, customerPhone: string)
    requires ValidState(s)
    requires AvailableTimeSlots(s, businessSlug, date, serviceId, now).Ok?
    requires k < |AvailableTimeSlots(s, businessSlug, date, serviceId, now).value.timeSlots|
    requires AvailableTimeSlots(s, businessSlug, date, serviceId, now).value.timeSlots[k].available
    requires forall b :: b in s.bookings && b.businessId == LookupSlug(s.businesses, businessSlug).value.id
               && b.status == Confirmed && b.startTime < StartOfDay(date)
               ==> b.endTime <= StartOfDay(date)
    ensures var slot := AvailableTimeSlots(s, businessSlug, date, serviceId, now).value.timeSlots[k];
      CreateBookingOutcome(s, businessSlug, BookingRequest(Some(serviceId), Some(slot.startTime),
                                                           Some(customerName), Some(customerPhone)), now).Ok?
  {
    var business := LookupSlug(s.businesses, businessSlug).value;
    var service := ServiceOf(s.services, serviceId, business.id).value;
    var existing := FindByBusinessIdAndStartTimeBetween(s.bookings, business.id, StartOfDay(date), StartOfDay(date + 1));
    var w := WindowFor(GetHoursForDay(s.hours, business.id, DayOfWeek(date)));
    WindowWithinDay(s, business.id, DayOfWeek(date));
    SlotsFromShape(date, w, w.open, service.durationMinutes, existing, now);
    FitCountExact(w.open, service.durationMinutes, w.close, k);
    var slot := SlotsFrom(date, w, w.open, service.durationMinutes, existing, now)[k];
    forall b | b in s.bookings
      ensures !OverlapsConfirmed(b, business.id, slot.startTime, slot.endTime)
    {
      if b.businessId == business.id && StartOfDay(date) <= b.startTime <= StartOfDay(date + 1) {
        assert b in existing;
      }
    }
  }

  /** The query and admission disagree about bookings that start the day before:
      a CONFIRMED booking from 23:00 to 01:00 is not fetched for the date, so the
      00:00 slot is shown as available, yet booking it is refused. */
  lemma PreviousDayBookingMismatch()
    ensures var business := Business(1, "Salon", "salon", true, None);
      var services := map[1 := Service(1, 1, "Cut", 30, 20.0, true)];
      var late := Booking(1, 1, 1, -60, 60, "A", "12345678", Confirmed);
      var existing := FindByBusinessIdAndStartTimeBetween([late], 1, StartOfDay(0), StartOfDay(1));
      && SlotAt(0, DayWindow(0, 1080, None, None), 0, 30, existing, 0).available
      && Admit(business, services, [late], 1, 0, "B", "87654321", 0) == Err(BookingConflict)
  {
  }

  /** The query and admission disagree about COMPLETED bookings: one from 10:00
      to 10:30 makes the 10:00 slot unavailable, yet booking 10:00 is admitted. */
  lemma CompletedBookingMismatch()
    ensures var business := Business(1, "Salon", "salon", true, None);
      var services := map[1 := Service(1, 1, "Cut", 30, 20.0, true)];
      var done := Booking(1, 1, 1, 600, 630, "A", "12345678", Completed);
      && !SlotAt(0, DayWindow(540, 1080, None, None), 600, 30, [done], 0).available
      && Admit(business, services, [done], 1, 600, "B", "87654321", 0).Ok?
  {
    var done := Booking(1, 1, 1, 600, 630, "A", "12345678", Completed);
    assert done in [done] && Blocks(done, 600, 630);
  }

  // ================================================================ cancellation

  /** Cancelling a booking never makes admission fail where it succeeded. */
  lemma CancellingNeverBlocksAdmission(business: Business, services: map<nat, Service>, bookings: seq<Booking>, i: nat,
                                       serviceId: nat, startTime: int, customerName: string, customerPhone: string, now: int)
    requires i < |bookings|
    requires Admit(business, services, bookings, serviceId, startTime, customerName, customerPhone, now).Ok?
    ensures Admit(business, services, bookings[i := bookings[i].(status := Cancelled)], serviceId, startTime,
                  customerName, customerPhone, now)
         == Admit(business, services, bookings, serviceId, startTime, customerName, customerPhone, now)
  {
    var after := bookings[i := bookings[i].(status := Cancelled)];
    var endTime := startTime + services[serviceId].durationMinutes;
    forall j | 0 <= j < |after|
      ensures !OverlapsConfirmed(after[j], business.id, startTime, endTime)
    {
      if j != i {
        assert after[j] == bookings[j] && bookings[j] in bookings;
      }
    }
  }

  /** Cancellation frees capacity: when the one CONFIRMED booking of the business
      that overlaps a start is cancelled, admission at that start, refused before,
      succeeds. */
  lemma CancellingFreesAdmission(business: Business, services: map<nat, Service>, bookings: seq<Booking>, i: nat,
                                 serviceId: nat, startTime: int, customerName: string, customerPhone: string, now: int)
    requires i < |bookings|
    requires business.active && serviceId in services && services[serviceId].businessId == business.id
             && services[serviceId].active && now <= startTime
    requires OverlapsConfirmed(bookings[i], business.id, startTime, startTime + services[serviceId].durationMinutes)
    requires forall j :: 0 <= j < |bookings| && j != i ==>
               !OverlapsConfirmed(bookings[j], business.id, startTime, startTime + services[serviceId].durationMinutes)
    ensures Admit(business, services, bookings, serviceId, startTime, customerName, customerPhone, now)
         == Err(BookingConflict)
    ensures Admit(business, services, bookings[i := bookings[i].(status := Cancelled)], serviceId, startTime,
                  customerName, customerPhone, now).Ok?
  {
    var endTime := startTime + services[serviceId].durationMinutes;
    assert bookings[i] in bookings;
    var after := bookings[i := bookings[i].(status := Cancelled)];
    forall b | b in after
      ensures !OverlapsConfirmed(b, business.id, startTime, endTime)
    {
      var j :| 0 <= j < |after| && after[j] == b;
      if j != i {
        assert after[j] == bookings[j];
      }
    }
  }

  /** The same on the slot list: when the one fetched booking that blocks a slot
      is cancelled, the slot, unavailable before, is listed as available, as long
      as it is neither in the break nor in the past. */
  lemma CancellingFreesSlot(date: int, w: DayWindow, t: int, duration: int, existing: seq<Booking>, now: int, i: nat)
    requires i < |existing|
    requires !DuringBreak(t, w) && now <= At(date, t)
    requires Blocks(existing[i], At(date, t), At(date, t) + duration)
    requires forall j :: 0 <= j < |existing| && j != i ==> !Blocks(existing[j], At(date, t), At(date, t) + duration)
    ensures !SlotAt(date, w, t, duration, existing, now).available
    ensures SlotAt(date, w, t, duration, existing[i := existing[i].(status := Cancelled)], now).available
  {
    assert existing[i] in existing;
    var after := existing[i := existing[i].(status := Cancelled)];
    forall b | b in after
      ensures !Blocks(b, At(date, t), At(date, t) + duration)
    {
      var j :| 0 <= j < |after| && after[j] == b;
      if j != i {
        assert after[j] == existing[j];
      }
    }
  }

  /** `cancelBooking`: sets the booking's status to CANCELLED whatever it was;
      an unknown id is ResourceNotFound. Bookings are numbered from 1 in
      insertion order, so the id names its position. */
  method CancelBooking(db: Store, bookingId: nat) returns (r: Result<()>)
    requires db.Valid()
    modifies db
    ensures db.Valid()
    ensures r.Ok? <==> 1 <= bookingId <= |old(db.bookings)|
    ensures r.Err? ==> r.error == ResourceNotFound && db.State() == old(db.State())
    ensures r.Ok? ==> db.State() == old(db.State()).(bookings := old(db.bookings)[bookingId - 1 :=
                                        old(db.bookings)[bookingId - 1].(status := Cancelled)])
  {
    IndexOfSequentialId(db.bookings, bookingId);
    match IndexOfId(db.bookings, bookingId)
    case None =>
      return Err(ResourceNotFound);
    case Some(i) =>
      ValidWithStatus(db.State(), i, Cancelled);
      db.bookings := db.bookings[i := db.bookings[i].(status := Cancelled)];
      return Ok(());
  }
}
