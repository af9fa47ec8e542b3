# Salon booking engine in Dafny

A model of the booking and availability engine of the Salon Spring back end, with
the tenant-scoped record operations around it. Customers book treatments at a
business through a public page. The engine:

- lists the 30-minute slots of a day and marks each one available or not;
- admits a booking after checking the business, the service, the start instant and
  overlaps with CONFIRMED bookings;
- decides whether a date is open, from the weekly hours and the closed dates.

Around the engine sit the operations that keep the tables it reads:

- the system administrator registers businesses, together with their owner
  accounts and default hours;
- owners edit their services and mark bookings COMPLETED or CANCELLED;
- the service catalogue can be edited by business slug.

Modules, one per source file:

- `Common`: minutes, days, weekdays, errors and `Result`.
- `Entities`: the JPA entities as values.
- `BusinessHoursModel`: the hours record and its persist hook, as a class.
- `Requests`: the bean-validation constraints of the request bodies.
- `BookingRepository`: the booking queries as filters.
- `Store`: every table as a field of one class, plus the invariant `ValidState`
  that the operations keep.
- `BusinessHoursService`, `BookingService`, `BusinessOwnerService`,
  `BusinessService`, `ServiceManagementService`: the service classes. Each one is
  a set of methods on a `Store`, specified by functions on its `StoreState`
  snapshot.

How times are represented:

- An instant is a number of minutes.
- A date is a day number; the date starts at `StartOfDay(d) = 1440·d`.
- The weekday is `d % 7`, with 0 for Monday.
- A time of day is minutes after midnight.
- The clock (`LocalDateTime.now()`, `LocalDate.now()`) becomes the `now` or
  `today` parameter.
- `publicUrl` becomes a parameter.

Where the source can fail with an exception, the model returns `Err`. Nothing is
stored on that path.

Where the code differs from what its names suggest, the model follows the code:

- The past check is `startTime < now`, so a start exactly at `now` passes.
- A COMPLETED booking greys out a slot but does not block admission
  (`BookingService.CompletedBookingMismatch`).
- A booking that starts on the previous day and runs past midnight is not fetched
  for the slot list (`BookingService.PreviousDayBookingMismatch`).
- Admission does not look at the opening hours at all.
- `updateBusinessHours` on a weekday that already has a record answers with the
  request's fields as set, before the persist hook has run; the hook runs, and
  can still refuse the record, only when the transaction commits
  (`BusinessHoursService.UpdateAnswer`).

The invariant `ValidState` says:

- ids are keys and lie below their counters;
- slugs, usernames and e-mails are unique;
- service durations lie in 5..480;
- stored hours records are normalised by the hook;
- bookings are numbered 1, 2, … in insertion order;
- no two CONFIRMED bookings of one business overlap.

The last item holds for calls made one after the other
(`BookingService.AttemptsNeverDoubleBook`). The source's transactions are not
shown to make it hold under concurrency.

## Model

Paths are below `Salon/src/main/java/com/example/salon/`.

| member | source | states |
|---|---|---|
| BusinessHoursModel.Validated | Salon/src/main/java/com/example/salon/model/BusinessHours.java:49-61 | a rejection is IllegalState; the result keeps `isOpen`, and an accepted open record has both times |
| BusinessHoursModel.ValidatedRejects | Salon/src/main/java/com/example/salon/model/BusinessHours.java:52-54 | the hook rejects exactly the open records that lack an open or a close time |
| BusinessHoursModel.ValidatedClearsClosedDay | Salon/src/main/java/com/example/salon/model/BusinessHours.java:55-60 | a closed record comes out with all four time fields null |
| BusinessHoursModel.ValidatedKeepsOpenDay | Salon/src/main/java/com/example/salon/model/BusinessHours.java:52-60 | an open record with both times is kept unchanged, breaks included |
| BusinessHoursModel.ValidatedIdempotent | Salon/src/main/java/com/example/salon/model/BusinessHours.java:49-61 | running the hook on its own output changes nothing |
| BusinessHoursModel.ValidatedIgnoresOrder | Salon/src/main/java/com/example/salon/model/BusinessHours.java:52-54 | a record that closes before it opens, with a break outside the day, is accepted as it is |
| BusinessHoursModel.BusinessHours.constructor | Salon/src/main/java/com/example/salon/model/BusinessHours.java:32-46 | a record built with no fields given is closed and has no times |
| BusinessHoursModel.BusinessHours.Load | Salon/src/main/java/com/example/salon/model/BusinessHours.java:32-46 | a record loaded from the table has the stored field values |
| BusinessHoursModel.BusinessHours.SetAll | Salon/src/main/java/com/example/salon/service/BusinessHoursService.java:54-58 | the five setters leave the record equal to the given fields |
| BusinessHoursModel.BusinessHours.Validate | Salon/src/main/java/com/example/salon/model/BusinessHours.java:49-61 | the in-place hook succeeds iff `Validated` accepts the record; on success the fields become the validated record, on failure they are untouched |
| Requests.PhoneShape | Salon/src/main/java/com/example/salon/dto/BookingRequest.java:27-29 | a phone matching the pattern has 8 to 16 characters, all digits except an optional '+' in first place |
| Requests.FutureIsStricterThanPastCheck | Salon/src/main/java/com/example/salon/dto/BookingRequest.java:19-21 | a request starting exactly at the validation instant fails @Future, although it passes the service's `startTime < now` test |
| Requests.ValidServiceHasPositiveDuration | Salon/src/main/java/com/example/salon/dto/ServiceRequest.java:20-23 | a valid service request gives every slot and booking made from it an end after its start and at most 480 minutes later |
| Requests.FreeServiceRefused | Salon/src/main/java/com/example/salon/dto/ServiceRequest.java:25-27 | a price of exactly 0 makes a service request invalid |
| Requests.SlugPatternImpliesNotBlank | Salon/src/main/java/com/example/salon/dto/BusinessRequest.java:19-21 | any slug matching `^[a-z0-9-]+$` is also non-blank |
| Requests.Utf16Length | Salon/src/main/java/com/example/salon/dto/ServiceRequest.java:17 | `@Size` measures UTF-16 code units: between one and two per character |
| Requests.Utf16LengthOfAstral | Salon/src/main/java/com/example/salon/dto/BookingRequest.java:24 | a string of characters beyond U+FFFF counts two code units per character |
| Requests.Utf16LengthOfBmp | Salon/src/main/java/com/example/salon/dto/BusinessRequest.java:16 | a string within the Basic Multilingual Plane counts one code unit per character |
| Requests.EmojiNameTooLong | Salon/src/main/java/com/example/salon/dto/ServiceRequest.java:17 | a name of 60 emoji breaks `@Size(max = 100)`, although it has only 60 characters |
| BookingRepository.FindOverlappingBookings | Salon/src/main/java/com/example/salon/repository/BookingRepository.java:15-22 | returns exactly the table's CONFIRMED bookings of the business that overlap [start, end) half-open; empty iff no booking meets that condition |
| BookingRepository.FindByBusinessIdAndStartTimeBetween | Salon/src/main/java/com/example/salon/repository/BookingRepository.java:24-28 | returns exactly the business's bookings whose start lies in [from, to], both ends inclusive |
| BookingRepository.FindByBusinessId | Salon/src/main/java/com/example/salon/repository/BookingRepository.java:35 | returns exactly the business's bookings |
| BookingRepository.FindByCustomerPhone | Salon/src/main/java/com/example/salon/repository/BookingRepository.java:30 | returns exactly the bookings with that phone |
| BookingRepository.IndexOfId | Salon/src/main/java/com/example/salon/service/BookingService.java:123-124 | `findById`: the first position holding that id, or None when no booking has it |
| BookingRepository.IndexOfSequentialId | Salon/src/main/java/com/example/salon/service/BookingService.java:123-124 | with bookings numbered 1, 2, … the booking with id n sits at position n-1, and ids outside 1..count are not found |
| BookingRepository.OverlapIgnoresCompletedAndCancelled | Salon/src/main/java/com/example/salon/repository/BookingRepository.java:16 | a COMPLETED or a CANCELLED booking is never reported as overlapping |
| BookingRepository.BetweenMissesBookingFromPreviousDay | Salon/src/main/java/com/example/salon/repository/BookingRepository.java:24-28 | a booking from 23:30 the day before until 01:00 is not among the date's bookings |
| Store.LookupSlug | Salon/src/main/java/com/example/salon/service/BookingService.java:43-44 | `findBySlug`: the business found has the slug and is stored; the result is None iff no business has that slug |
| Store.FindBySlug | Salon/src/main/java/com/example/salon/service/BookingService.java:43-44 | the method returns the stored business with that slug, the one `LookupSlug` names |
| Store.LookupUsername | Salon/src/main/java/com/example/salon/service/BusinessOwnerService.java:211-214 | `findByUsername`: the user found has the username; the result is None iff no user has it |
| Store.FindByUsername | Salon/src/main/java/com/example/salon/service/BusinessOwnerService.java:211-214 | the method returns the user that `LookupUsername` names |
| Store.ActiveServicesExactly | Salon/src/main/java/com/example/salon/service/ServiceManagementService.java:51 | `findByBusinessIdAndActiveTrue` lists a service iff it is stored, belongs to the business and is active |
| BusinessHoursService.ClosedDateOverridesHours | Salon/src/main/java/com/example/salon/service/BusinessHoursService.java:136-138 | a closed date of the business makes the date closed, whatever the weekly hours say |
| BusinessHoursService.OpenExactlyOnOpenWeekday | Salon/src/main/java/com/example/salon/service/BusinessHoursService.java:141-144 | without a closed date, the date is open iff its weekday record exists and is open; a missing record means closed |
| BusinessHoursService.OtherClosedDatesIrrelevant | Salon/src/main/java/com/example/salon/service/BusinessHoursService.java:136 | adding a closed date of another business, or of another date, does not change the answer |
| BusinessHoursService.AddedClosedDateCloses | Salon/src/main/java/com/example/salon/service/BusinessHoursService.java:112-125 | a date is closed for its business once that closed date is stored |
| BusinessHoursService.HoursFrom | Salon/src/main/java/com/example/salon/repository/BusinessHoursRepository.java:14 | the listed records are exactly the business's stored records from the given weekday on, each weekday once |
| BusinessHoursService.GetBusinessHours | Salon/src/main/java/com/example/salon/service/BusinessHoursService.java:31-37 | a weekday and record are listed iff the business has that record stored; no weekday is listed twice |
| BusinessHoursService.GetHoursForDay | Salon/src/main/java/com/example/salon/service/BusinessHoursService.java:147-150 | the weekday's record or none; `OpenExactlyOnOpenWeekday`, `FallbackUnreachableWhenOpen` and `WindowWithinDay` state what its callers get from it |
| BusinessHoursService.IsBusinessOpen | Salon/src/main/java/com/example/salon/service/BusinessHoursService.java:134-145 | the open/closed decision; `ClosedDateOverridesHours`, `OpenExactlyOnOpenWeekday`, `OtherClosedDatesIrrelevant` and `AddedClosedDateCloses` state it |
| BusinessHoursService.GetClosedDates | Salon/src/main/java/com/example/salon/service/BusinessHoursService.java:102-109 | the business's closed dates from today on; `ClosedDatesListedFromToday` states membership in both directions |
| BusinessHoursService.ClosedDatesListedFromToday | Salon/src/main/java/com/example/salon/service/BusinessHoursService.java:102-109 | a closed date is listed iff it is stored, belongs to the business and is not before today |
| BusinessHoursService.AddDefaultDaysShape | Salon/src/main/java/com/example/salon/service/BusinessHoursService.java:81-93 | after the first n loop iterations the business has the default record of each of the first n weekdays; other keys keep their old records |
| BusinessHoursService.DefaultWeekShape | Salon/src/main/java/com/example/salon/service/BusinessHoursService.java:80-93 | a business without hours gets all seven weekdays: Monday to Friday open 09:00 to 18:00 with no break, Saturday and Sunday closed; each record passes the hook unchanged |
| BusinessHoursService.DefaultHoursKeepOthers | Salon/src/main/java/com/example/salon/service/BusinessHoursService.java:81-93 | the default hours of one business leave every other business's records alone |
| BusinessHoursService.WithDefaultHoursIdempotent | Salon/src/main/java/com/example/salon/service/BusinessHoursService.java:75-78 | initialising the default hours twice gives the same hours as once |
| BusinessHoursService.WriteHours | Salon/src/main/java/com/example/salon/model/BusinessHours.java:49-51 | the hook's verdict on the object is the result; on acceptance the object and the stored record under the key become the validated record, on rejection nothing is stored |
| BusinessHoursService.UpdateAnswer | Salon/src/main/java/com/example/salon/service/BusinessHoursService.java:47-63 | the answer fails iff the hook refuses the request, always with IllegalState; for a loaded record it is the request's own fields, for a new record the validated ones |
| BusinessHoursService.UpdateAnswerShowsStored | Salon/src/main/java/com/example/salon/service/BusinessHoursService.java:60-63 | the answer equals the stored record iff the record is new or the request is already in the hook's normal form |
| BusinessHoursService.ClosingStoredDayAnswersStaleTimes | Salon/src/main/java/com/example/salon/service/BusinessHoursService.java:47-63 | closing a stored weekday with its 09:00/18:00 times left in the request answers with those times, while the stored record has none |
| BusinessHoursService.UpdateBusinessHours | Salon/src/main/java/com/example/salon/service/BusinessHoursService.java:39-68 | an unknown business gives ResourceNotFound; otherwise the answer is `UpdateAnswer`, which depends on whether the weekday had a record; on success that weekday's record becomes the validated request, on failure nothing is stored; nothing else changes |
| BusinessHoursService.InitializeDefaultHours | Salon/src/main/java/com/example/salon/service/BusinessHoursService.java:70-96 | an unknown business gives ResourceNotFound and no change; a business with hours is left as it is; otherwise the default week is added and nothing else changes |
| BusinessHoursService.SaveDefaultWeek | Salon/src/main/java/com/example/salon/service/BusinessHoursService.java:81-93 | the loop over the seven weekdays saves exactly the default record of each one |
| BusinessHoursService.AddClosedDate | Salon/src/main/java/com/example/salon/service/BusinessHoursService.java:111-126 | an unknown business gives ResourceNotFound; a missing date or a reason over 200 characters is refused by the insert (`model/ClosedDate.java` lines 27-30); both leave the store unchanged; otherwise one closed date with the next id, the date and the reason is added, and nothing else changes |
| BusinessHoursService.DeleteClosedDate | Salon/src/main/java/com/example/salon/service/BusinessHoursService.java:128-132 | removes that closed date, if any, and nothing else |
| BookingService.HasConflict | Salon/src/main/java/com/example/salon/service/BookingService.java:224-237 | true iff some fetched booking that is not CANCELLED overlaps the slot half-open; COMPLETED bookings count |
| BookingService.WindowFor | Salon/src/main/java/com/example/salon/service/BookingService.java:166-179 | the window the loop walks; `FallbackUnreachableWhenOpen` shows the 09:00/18:00 fallback is never used on an open day of a valid store, and `WindowWithinDay` that the window lies within the day |
| BookingService.SlotsFrom | Salon/src/main/java/com/example/salon/service/BookingService.java:182-216 | the corrected slot list; `SlotsFromShape` and `FitCountExact` give its k-th entry and its length, `SlotListBounded` its bound, and `GenerateSlots` is proved to compute it |
| BookingService.FitCountExact | Salon/src/main/java/com/example/salon/service/BookingService.java:186-207 | the k-th candidate start fits (before closing, ending no later than closing) iff k is below the count of slots; once one does not fit, none after it does |
| BookingService.SlotsFromShape | Salon/src/main/java/com/example/salon/service/BookingService.java:182-216 | the slot list has one entry per fitting candidate, and the k-th entry is the slot of start `open + 30·k` |
| BookingService.GenerateSlots | Salon/src/main/java/com/example/salon/service/BookingService.java:182-216 | the k-th slot starts at `open + 30·k` and lasts the duration; the list is exactly the candidates with `start < close` and `start + duration ≤ close`; starts strictly increase; no slot ends after closing; a slot is available iff its start is not in [breakStart, breakEnd), no non-CANCELLED booking overlaps it, and it does not start before now |
| BookingService.SlotListBounded | Salon/src/main/java/com/example/salon/service/BookingService.java:205-207 | with instants compared without wrap-around, the loop ends after at most one slot per 30 minutes between open and close |
| BookingService.SlotStraddlingBreakStartStaysAvailable | Salon/src/main/java/com/example/salon/service/BookingService.java:192-194 | only the slot's start is tested against the break: a slot from 11:30 to 12:30 stays available with a break from 12:00 |
| BookingService.SlotsAsWritten | Salon/src/main/java/com/example/salon/service/BookingService.java:184-216 | the loop as written, with times of day wrapping at midnight; `LateSlotKeptAsWritten` and `WrapAroundNeverStops` show where it goes wrong, `AsWrittenAgreesWithoutWrap` where it agrees with `SlotsFrom` |
| BookingService.LateSlotKeptAsWritten | Salon/src/main/java/com/example/salon/service/BookingService.java:205-207 | as written, a 480-minute slot from 18:00 with closing at 20:00 is offered, because its end reads as 02:00; the corrected loop offers none |
| BookingService.WrapAroundNeverStops | Salon/src/main/java/com/example/salon/service/BookingService.java:184-215 | as written, with hours 00:00 to 23:59 and a 5-minute service, the candidate wraps from 23:30 to 00:00 and the loop emits a slot at every step, for any bound on the steps |
| BookingService.AsWrittenAgreesWithoutWrap | Salon/src/main/java/com/example/salon/service/BookingService.java:184-216 | where no reached candidate or slot end passes midnight, the loop as written and the corrected loop give the same slots |
| BookingService.AvailableTimeSlots | Salon/src/main/java/com/example/salon/service/BookingService.java:133-222 | the slot query on a store snapshot; `ClosedDayHasNoSlots`, `SlotsLieWithinDay` and `AvailableSlotIsAdmissible` state its properties |
| BookingService.GetAvailableTimeSlots | Salon/src/main/java/com/example/salon/service/BookingService.java:133-222 | the result is the slot query on the store: an unknown slug gives ResourceNotFound; an inactive business gives BusinessNotActive; a closed date gives an empty list; a missing, foreign or inactive service gives ResourceNotFound; otherwise the day's slots against the bookings that start on it |
| BookingService.ClosedDayHasNoSlots | Salon/src/main/java/com/example/salon/service/BookingService.java:143-157 | on a closed date the list is empty for any service id, even an unknown one, because the day is tested before the service |
| BookingService.FallbackUnreachableWhenOpen | Salon/src/main/java/com/example/salon/service/BookingService.java:167-179 | on a valid store an open day has a record with its own open and close times, so the 09:00/18:00 fallback is never used |
| BookingService.WindowWithinDay | Salon/src/main/java/com/example/salon/service/BookingService.java:167-179 | on a valid store the day's window opens at or after 00:00 and closes before midnight |
| BookingService.SlotsLieWithinDay | Salon/src/main/java/com/example/salon/service/BookingService.java:186-213 | every listed slot starts on the requested date and ends after it starts and before the next day |
| BookingService.ValidRequestIsComplete | Salon/src/main/java/com/example/salon/dto/BookingRequest.java:16-29 | a request that passes validation has every field that the service dereferences |
| BookingService.Admit | Salon/src/main/java/com/example/salon/service/BookingService.java:46-91 | admission once the business is found; `AdmitSucceedsExactly` states when it succeeds, `AdmittedBookingShape` what it admits, `AdmitPreservesNoDoubleBooking` that it never double-books |
| BookingService.CreateBookingOutcome | Salon/src/main/java/com/example/salon/service/BookingService.java:40-96 | `createBooking` on a store snapshot; `AttemptsNeverDoubleBook` and `AvailableSlotIsAdmissible` are stated over it, and `CreateBooking` is proved to compute it |
| BookingService.AdmittedBookingShape | Salon/src/main/java/com/example/salon/service/BookingService.java:51-91 | an admitted booking uses an active service of that business; it has the next id, status CONFIRMED, the request's start, name and phone, and an end exactly the duration after the start |
| BookingService.AdmitSucceedsExactly | Salon/src/main/java/com/example/salon/service/BookingService.java:46-78 | admission succeeds iff the business is active, the service is an active one of that business, the start is not before now, and no CONFIRMED booking of the business overlaps |
| BookingService.AdmitPreservesNoDoubleBooking | Salon/src/main/java/com/example/salon/service/BookingService.java:68-91 | appending an admitted booking keeps CONFIRMED bookings of one business pairwise non-overlapping |
| BookingService.AttemptsNeverDoubleBook | Salon/src/main/java/com/example/salon/service/BookingService.java:40-96 | after any sequence of booking attempts, one after another, no two CONFIRMED bookings of a business overlap |
| BookingService.CreateBooking | Salon/src/main/java/com/example/salon/service/BookingService.java:40-96 | the outcome is the admission decision; the checks fail in the order slug, active, service, past, overlap; on success exactly the admitted booking is appended, on failure nothing changes; the invariant is kept |
| BookingService.AvailableSlotIsAdmissible | Salon/src/main/java/com/example/salon/service/BookingService.java:160-197 | a slot shown as available is admitted when booked, provided no CONFIRMED booking of the same business from an earlier day runs into the date |
| BookingService.PreviousDayBookingMismatch | Salon/src/main/java/com/example/salon/service/BookingService.java:160-164 | a booking from 23:00 to 01:00 leaves the 00:00 slot shown available, yet booking it is refused with BookingConflict |
| BookingService.CompletedBookingMismatch | Salon/src/main/java/com/example/salon/service/BookingService.java:227 | a COMPLETED booking at 10:00 greys out the 10:00 slot, yet booking 10:00 is admitted |
| BookingService.CancellingNeverBlocksAdmission | Salon/src/main/java/com/example/salon/service/BookingService.java:126 | cancelling any booking leaves an admission that succeeded unchanged |
| BookingService.CancellingFreesAdmission | Salon/src/main/java/com/example/salon/service/BookingService.java:121-130 | when the only CONFIRMED booking of the business overlapping a start is cancelled, admission there, refused with BookingConflict before, succeeds |
| BookingService.CancellingFreesSlot | Salon/src/main/java/com/example/salon/service/BookingService.java:224-237 | when the only fetched booking blocking a slot is cancelled, the slot, unavailable before, is listed as available unless it is in the break or the past |
| BookingService.CancelBooking | Salon/src/main/java/com/example/salon/service/BookingService.java:121-130 | an unknown id gives ResourceNotFound and no change; otherwise that booking becomes CANCELLED whatever its status, with every other field and booking unchanged |
| BusinessService.BookingUrlDeterminesSlug | Salon/src/main/java/com/example/salon/service/BusinessService.java:166 | with one public URL, equal booking links mean equal slugs |
| BusinessService.OwnerUsernameShape | Salon/src/main/java/com/example/salon/dto/BusinessRequest.java:19-22 | a valid slug gives an owner username of 9 to 56 characters of `[a-z0-9-]` that starts with the slug |
| BusinessService.OwnerUsernameInjective | Salon/src/main/java/com/example/salon/service/BusinessService.java:53 | different slugs give different owner usernames |
| BusinessService.OwnerUsernameFitsUpTo44 | Salon/src/main/java/com/example/salon/model/User.java:22-23 | the owner username fits the 50-character username column exactly for slugs of at most 44 characters |
| BusinessService.GenerateTemporaryPassword | Salon/src/main/java/com/example/salon/service/BusinessService.java:148-158 | the password has 8 characters, each in '1'..'9' |
| BusinessService.FreshBusinessHasNoHours | Salon/src/main/java/com/example/salon/service/BusinessService.java:88 | a business with a new id has no hours yet, so the default-hours step adds the full week |
| BusinessService.CreatedBusinessShape | Salon/src/main/java/com/example/salon/service/BusinessService.java:63-88 | after registration the business is active and owned by the new user; the user is an active BUSINESS_OWNER linked to the business; each weekday has its default record |
| BusinessService.CreateBusiness | Salon/src/main/java/com/example/salon/service/BusinessService.java:40-103 | fails with DuplicateResource iff the slug, the e-mail or `slug + "-owner"` is taken; once those checks pass, fails with DataIntegrity iff the owner username is over 50 or the e-mail over 100 characters (`model/User.java` lines 22-25), the transaction rolling back the business row; every failure changes nothing; otherwise the store becomes `Created` and the response carries the new id, the booking link, the owner username and e-mail, and an 8-digit password; the invariant is kept |
| BusinessService.Register | Salon/src/main/java/com/example/salon/service/BusinessService.java:62-88 | after the duplicate checks pass and the owner row fits its columns, steps 1 to 4 leave the store as `Created` describes |
| BusinessService.LinkOwner | Salon/src/main/java/com/example/salon/service/BusinessService.java:62-85 | given that the owner row fits its columns, the business and its owner are inserted under the next ids, each pointing at the other |
| BusinessService.UpdateBusinessStatus | Salon/src/main/java/com/example/salon/service/BusinessService.java:121-132 | an unknown id gives ResourceNotFound and no change; otherwise only that business's `active` flag changes |
| BusinessService.DeleteBusiness | Salon/src/main/java/com/example/salon/service/BusinessService.java:134-142 | an unknown id gives ResourceNotFound and no change; otherwise exactly that business is removed |
| BusinessService.GetBusinessBySlug | Salon/src/main/java/com/example/salon/service/BusinessService.java:105-111 | ResourceNotFound iff no business has the slug; otherwise that business's response, with the booking link `publicUrl + "/book/" + slug` |
| BusinessOwnerService.OwnerBusiness | Salon/src/main/java/com/example/salon/service/BusinessOwnerService.java:211-221 | both failures, unknown user and no linked business, are ResourceNotFound |
| BusinessOwnerService.OwnerBusinessExactly | Salon/src/main/java/com/example/salon/service/BusinessOwnerService.java:211-221 | the lookup fails iff no user with that name is linked to a business; otherwise it yields that user's business |
| BusinessOwnerService.ResolveOwner | Salon/src/main/java/com/example/salon/service/BusinessOwnerService.java:211-221 | the method's result is the owner lookup |
| BusinessOwnerService.GetMyBusiness | Salon/src/main/java/com/example/salon/service/BusinessOwnerService.java:44-57 | a failed owner lookup gives ResourceNotFound; otherwise the owner's business, with the link `publicUrl + "/book/" + slug` |
| BusinessOwnerService.GetMyServices | Salon/src/main/java/com/example/salon/service/BusinessOwnerService.java:63-72 | only the owner business's active services, stored as they are |
| BusinessOwnerService.GetAllMyBookings | Salon/src/main/java/com/example/salon/service/BusinessOwnerService.java:138-148 | exactly the owner business's bookings |
| BusinessOwnerService.GetMyBookingsByDate | Salon/src/main/java/com/example/salon/service/BusinessOwnerService.java:150-163 | the owner business's bookings that start between the date's midnight and the next, both included |
| BusinessOwnerService.AddService | Salon/src/main/java/com/example/salon/service/BusinessOwnerService.java:74-92 | a failed owner lookup gives ResourceNotFound and no change; otherwise one active service of the owner's business with the request's name, duration and price is added under the next id; nothing else changes |
| BusinessOwnerService.ServiceRefusalExactly | Salon/src/main/java/com/example/salon/service/BusinessOwnerService.java:99-105 | a service edit passes iff the caller owns the service; a service of another business is Unauthorized |
| BusinessOwnerService.CheckServiceOwner | Salon/src/main/java/com/example/salon/service/BusinessOwnerService.java:96-105 | the method's refusal is the owner lookup, then service presence, then ownership |
| BusinessOwnerService.UpdateService | Salon/src/main/java/com/example/salon/service/BusinessOwnerService.java:94-115 | refused exactly as `ServiceRefusal` says, with no change; otherwise only name, duration and price change, and id, business and active are kept |
| BusinessOwnerService.DeleteService | Salon/src/main/java/com/example/salon/service/BusinessOwnerService.java:117-132 | refused exactly as `ServiceRefusal` says, with no change; otherwise exactly that service is removed |
| BusinessOwnerService.SetStatus | Salon/src/main/java/com/example/salon/service/BusinessOwnerService.java:165-205 | refused with the owner-lookup error, ResourceNotFound or Unauthorized and no change; otherwise only that booking's status is overwritten, whatever it was; the new store is `StatusChanged` |
| BusinessOwnerService.CompleteBooking | Salon/src/main/java/com/example/salon/service/BusinessOwnerService.java:165-184 | a booking the owner owns becomes COMPLETED, whatever its status, and nothing else changes; another business's booking is Unauthorized and unchanged |
| BusinessOwnerService.CancelBooking | Salon/src/main/java/com/example/salon/service/BusinessOwnerService.java:186-205 | a booking the owner owns becomes CANCELLED, a COMPLETED one included, and nothing else changes; another business's booking is Unauthorized and unchanged |
| BusinessOwnerService.BookingRefusalExactly | Salon/src/main/java/com/example/salon/service/BusinessOwnerService.java:170-176 | a status change passes iff the owner resolves and the id is that of a booking of the caller's business; another business's booking is Unauthorized |
| BusinessOwnerService.LaterStatusChangeWins | Salon/src/main/java/com/example/salon/service/BusinessOwnerService.java:165-205 | a status change does not change whether the next one is refused, and cancelling after completing (or completing after cancelling) leaves the store as the second change alone would |
| ServiceManagementService.Addressed | Salon/src/main/java/com/example/salon/service/ServiceManagementService.java:59-63 | an addressed service is the stored one with that id; every failure is ResourceNotFound |
| ServiceManagementService.AddressedExactly | Salon/src/main/java/com/example/salon/service/ServiceManagementService.java:59-63 | a service is addressed iff it belongs to the business with that slug; a foreign one is not found |
| ServiceManagementService.FindAddressed | Salon/src/main/java/com/example/salon/service/ServiceManagementService.java:59-63 | the method's result is `Addressed` |
| ServiceManagementService.CreateService | Salon/src/main/java/com/example/salon/service/ServiceManagementService.java:26-44 | an unknown slug gives ResourceNotFound and no change; otherwise one active service of that business with the request's fields is added under the next id |
| ServiceManagementService.GetActiveServices | Salon/src/main/java/com/example/salon/service/ServiceManagementService.java:46-55 | ResourceNotFound iff the slug is unknown; otherwise exactly the active services of that business |
| ServiceManagementService.UpdateService | Salon/src/main/java/com/example/salon/service/ServiceManagementService.java:57-74 | an unknown slug or a service not of that business gives ResourceNotFound and no change; otherwise only name, duration and price change |
| ServiceManagementService.DeleteService | Salon/src/main/java/com/example/salon/service/ServiceManagementService.java:76-87 | an unknown slug or a service not of that business gives ResourceNotFound and no change; otherwise exactly that service is removed |

## Left out

- Concurrency and transactions: the check-then-insert of `createBooking` is proved only for calls made one after the other.
- The clock: `now` is one parameter per call. The source reads the clock afresh for every slot.
- `LocalDateTime`/`LocalTime` calendar arithmetic: instants are minutes and dates are day numbers. The slot loop is modelled with absolute minutes, and the source's midnight wrap-around is covered by the Findings below.
- Entities:
  - `createdAt` and `updatedAt` timestamps, log calls and exception messages are not modelled.
  - The response mappers of services and bookings are not modelled; the model returns the entities themselves.
  - Lists that the source returns in repository order are sets where no order is promised (`GetMyServices`, `GetActiveServices`, `GetClosedDates`).
- BusinessHoursService.HoursFrom: `getBusinessHours` promises only which records are listed, not their order. The query orders by `dayOfWeek`, stored as the weekday's name (`model/BusinessHours.java` line 28), so on a character column the order is alphabetical (FRIDAY first), not Monday first.
- The hours request: `BusinessHoursDto` is given as an `HoursRow`. `BusinessHoursService.UpdateBusinessHours` requires its times to lie within a day, which `LocalTime` guarantees. `isOpen` is a `bool`: a request without it, on which the hook's `if (isOpen && …)` throws a NullPointerException before anything is stored, is not modelled.
- BusinessHoursService.UpdateBusinessHours: on a loaded record the hook's refusal comes at commit and reaches the caller wrapped by the transaction manager; the model reports it as IllegalState. A request equal to the stored record leaves the entity clean, so the hook does not run at all; the model runs it, with the same outcome, because stored records are already normalised.
- BusinessHoursService.AddClosedDate: whether an identity value is used up by a refused insert is not modelled; the id counter does not move. A reason over 200 characters is taken to be refused, as a strict SQL mode does; a database that truncates instead is not modelled.
- BusinessService.CreateBusiness: on the DataIntegrity path the business and user id counters do not move, although the refused transaction has already used a business id at the step-1 insert and may use a user id. An owner username over 50 or an e-mail over 100 characters is taken to be refused, as a strict SQL mode does; a database that truncates instead is not modelled.
- `@Email` on the owner e-mail: its grammar belongs to a validation library.
- `@NotBlank` uses characters up to U+0020 as blank, which is what `trim` removes. Unicode whitespace is not considered.
- Password hashing: `PasswordEncoder` is not modelled, and neither is the password field of the user.
- `SecureRandom`: each character of the password is an arbitrary choice from "123456789".
- `BookingService.getBookingsByDate` and `getCustomerBookings`: these only map the repository results, and `BookingRepository.FindByBusinessIdAndStartTimeBetween` and `FindByCustomerPhone` cover them.
- `BusinessService.getAllBusinesses` only maps the whole table.
- The `Business` and `Booking` entity files are not part of this model. With them missing:
  - No JPA cascade or foreign-key behaviour is modelled.
  - `BusinessService.DeleteBusiness` removes only the business row. A user keeps its link, and `BusinessOwnerService.GetMyBusiness` then reports ResourceNotFound. In the source this dangling link cannot arise: `users.business_id` (`model/User.java` lines 39-41) and the NOT NULL `business_hours.business_id` (`model/BusinessHours.java` lines 24-26) are foreign keys, so deleting a business with an owner or hours either cascades or is refused, depending on the `Business` mapping.
  - `DeleteService` does not touch the bookings of the service.
- Closed dates: `addClosedDate` accepts a second closed date for the same business and day. The source's single-result lookup in `isBusinessOpen` would then fail in the persistence layer. The model treats any matching closed date as closing the day.
- The controllers, the exception handler, authentication and the Blazor client are HTTP, security and UI plumbing.
- `BusinessService.CreateBusiness`, `BusinessOwnerService.AddService`, `UpdateService` and `ServiceManagementService.CreateService`, `UpdateService` require a request that passed bean validation, as the controllers' `@Valid` guarantees. `BookingService.CreateBooking` requires only the non-null fields it dereferences, because @Future is evaluated at an earlier instant than the service's own past check.
- `BookingService.GenerateSlots`: its contract describes the corrected loop (absolute minutes). It is deliberately not the wrapping loop as written; the as-written loop is `SlotsAsWritten`.

## Findings

| source | as written | input that shows it | evidently intended | confidence | as-written member | corrected member |
|---|---|---|---|---|---|---|
| Salon/src/main/java/com/example/salon/service/BookingService.java:205-207 | the stop test compares the slot end's time of day with closing, so an end after midnight reads as early in the day | hours 18:00–20:00, a 480-minute service: the slot 18:00–02:00 is offered | no slot ends after closing on the same day | not executed | BookingService.LateSlotKeptAsWritten | BookingService.GenerateSlots |
| Salon/src/main/java/com/example/salon/service/BookingService.java:215 | the next candidate is `plusMinutes(30)` on a time of day, which wraps from 23:30 to 00:00 while the loop guard is still true | hours 00:00–23:59, a 5-minute service: the candidates cycle through the day and the loop never ends | the loop stops after the last candidate before closing | not executed | BookingService.WrapAroundNeverStops | BookingService.SlotListBounded |
