/** BusinessHoursService: the weekly hours of a business, its closed dates, and
    the open/closed decision for one date that the slot query relies on. */
module BusinessHoursService {
  import opened Common
  import opened Entities
  import opened BusinessHoursModel
  import opened Store

  // ------------------------------------------------------------ queries

  /** `findByBusinessIdAndDayOfWeek`: the record of that weekday, if any. */
  function GetHoursForDay(hours: map<(nat, Weekday), HoursRow>, businessId: nat, day: Weekday): Option<HoursRow>
  {
    if (businessId, day) in hours then Some(hours[(businessId, day)]) else None
  }

  /** `findByBusinessIdAndClosedDate(...).isPresent()`. */
  predicate HasClosedDate(closedDates: map<nat, ClosedDate>, businessId: nat, date: int)
  {
    exists k :: k in closedDates && closedDates[k].businessId == businessId && closedDates[k].date == date
  }

  /** A business is open on a date unless the date is one of its closed dates;
      otherwise it is open exactly when there is a record for that weekday and
      the record says open. */
  function IsBusinessOpen(closedDates: map<nat, ClosedDate>, hours: map<(nat, Weekday), HoursRow>,
                          businessId: nat, date: int): bool
  {
    if HasClosedDate(closedDates, businessId, date) then false
    else
      match GetHoursForDay(hours, businessId, DayOfWeek(date))
      case Some(h) => h.isOpen
      case None => false
  }

  /** A closed date wins over the weekly hours, whatever they say. */
  lemma ClosedDateOverridesHours(closedDates: map<nat, ClosedDate>, hours: map<(nat, Weekday), HoursRow>,
                                 k: nat, businessId: nat, date: int)
    requires k in closedDates && closedDates[k].businessId == businessId && closedDates[k].date == date
    ensures !IsBusinessOpen(closedDates, hours, businessId, date)
  {
  }

  /** Without a closed date, the day is open exactly when its weekday's record
      exists and is open; a missing record means closed. */
  lemma OpenExactlyOnOpenWeekday(closedDates: map<nat, ClosedDate>, hours: map<(nat, Weekday), HoursRow>,
                                 businessId: nat, date: int)
    requires !HasClosedDate(closedDates, businessId, date)
    ensures IsBusinessOpen(closedDates, hours, businessId, date) <==>
      (businessId, DayOfWeek(date)) in hours && hours[(businessId, DayOfWeek(date))].isOpen
  {
  }

  /** Closed dates of another business, or on another date, do not matter. */
  lemma OtherClosedDatesIrrelevant(closedDates: map<nat, ClosedDate>, hours: map<(nat, Weekday), HoursRow>,
                                   c: ClosedDate, k: nat, businessId: nat, date: int)
    requires k !in closedDates && (c.businessId != businessId || c.date != date)
    ensures IsBusinessOpen(closedDates[k := c], hours, businessId, date) == IsBusinessOpen(closedDates, hours, businessId, date)
  {
    var m := closedDates[k := c];
    if HasClosedDate(m, businessId, date) {
      var j :| j in m && m[j].businessId == businessId && m[j].date == date;
      assert j != k && closedDates[j] == m[j];
    }
    if HasClosedDate(closedDates, businessId, date) {
      var j :| j in closedDates && closedDates[j].businessId == businessId && closedDates[j].date == date;
      assert j != k && m[j] == closedDates[j];
    }
  }

  /** `findByBusinessIdOrderByDayOfWeek`: the records of a business from weekday
      `from` on, each weekday once. The records are built Monday first, but only
      which records are listed is promised: the query orders by the weekday's
      NAME, stored as a string. */
  function HoursFrom(hours: map<(nat, Weekday), HoursRow>, businessId: nat, from: nat): (r: seq<(Weekday, HoursRow)>)
    requires from <= 7
    ensures forall i :: 0 <= i < |r| ==> from <= r[i].0 && (businessId, r[i].0) in hours
                                          && r[i].1 == hours[(businessId, r[i].0)]
    ensures forall d: Weekday :: from <= d && (businessId, d) in hours ==> (d, hours[(businessId, d)]) in r
    ensures forall i, j :: 0 <= i < j < |r| ==> r[i].0 != r[j].0
    decreases 7 - from
  {
    if from == 7 then []
    else
      var rest := HoursFrom(hours, businessId, from + 1);
      if (businessId, from) in hours then [(from as Weekday, hours[(businessId, from)])] + rest else rest
  }

  /** `getBusinessHours`: every weekday record of the business, each weekday once. */
  function GetBusinessHours(hours: map<(nat, Weekday), HoursRow>, businessId: nat): (r: seq<(Weekday, HoursRow)>)
    ensures forall d: Weekday, row :: (d, row) in r <==> (businessId, d) in hours && hours[(businessId, d)] == row
    ensures forall i, j :: 0 <= i < j < |r| ==> r[i].0 != r[j].0
  {
    HoursFrom(hours, businessId, 0)
  }

  /** Which closed dates have a given business and fall on or after a date. */
  predicate UpcomingClosedDate(c: ClosedDate, businessId: nat, today: int)
  {
    c.businessId == businessId && c.date >= today
  }

  /** `getClosedDates`: the business's closed dates from today on. */
  function GetClosedDates(closedDates: map<nat, ClosedDate>, businessId: nat, today: int): set<ClosedDate>
  {
    set k | k in closedDates && UpcomingClosedDate(closedDates[k], businessId, today) :: closedDates[k]
  }

  /** A closed date that is listed belongs to the business and is not in the past;
      every stored one of that kind is listed. */
  lemma ClosedDatesListedFromToday(closedDates: map<nat, ClosedDate>, businessId: nat, today: int, c: ClosedDate)
    ensures c in GetClosedDates(closedDates, businessId, today) <==>
      (exists k :: k in closedDates && closedDates[k] == c) && UpcomingClosedDate(c, businessId, today)
  {
  }

  // ------------------------------------------------------------ default hours

  /** The record `initializeDefaultHours` builds for a weekday: Monday to Friday
      open from 09:00 to 18:00 without a break, Saturday and Sunday closed. */
  function DefaultHoursFor(day: Weekday): HoursRow
  {
    var isWeekday := day != Saturday && day != Sunday;
    HoursRow(isWeekday, if isWeekday then Some(9 * 60) else None, if isWeekday then Some(18 * 60) else None, None, None)
  }

  /** The business already has at least one weekday record. */
  predicate HasHours(hours: map<(nat, Weekday), HoursRow>, businessId: nat)
  {
    exists key :: key in hours && key.0 == businessId
  }

  /** `hours` with the default record of each weekday before `upTo` saved over
      it, Monday first. */
  function AddDefaultDays(hours: map<(nat, Weekday), HoursRow>, businessId: nat, upTo: nat): map<(nat, Weekday), HoursRow>
    requires upTo <= 7
  {
    if upTo == 0 then hours
    else AddDefaultDays(hours, businessId, upTo - 1)[(businessId, (upTo - 1) as Weekday) := DefaultHoursFor((upTo - 1) as Weekday)]
  }

  /** The records of the first `upTo` weekdays of the business are the default
      ones; every other record is the one that was there. */
  lemma {:induction false} AddDefaultDaysShape(hours: map<(nat, Weekday), HoursRow>, businessId: nat, upTo: nat,
                                              key: (nat, Weekday))
    requires upTo <= 7
    ensures key in AddDefaultDays(hours, businessId, upTo) <==> key in hours || (key.0 == businessId && key.1 < upTo)
    ensures key in AddDefaultDays(hours, businessId, upTo) ==>
      AddDefaultDays(hours, businessId, upTo)[key] ==
        if key.0 == businessId && key.1 < upTo then DefaultHoursFor(key.1) else hours[key]
  {
    if upTo > 0 {
      AddDefaultDaysShape(hours, businessId, upTo - 1, key);
    }
  }

  /** The hours table after `initializeDefaultHours`: unchanged when the business
      has records already, and with the default week added otherwise. */
  function WithDefaultHours(hours: map<(nat, Weekday), HoursRow>, businessId: nat): map<(nat, Weekday), HoursRow>
  {
    if HasHours(hours, businessId) then hours else AddDefaultDays(hours, businessId, 7)
  }

  /** The default week is the advertised one, and every record in it is one that
      the persist hook accepts unchanged. */
  lemma DefaultWeekShape(hours: map<(nat, Weekday), HoursRow>, businessId: nat, day: Weekday)
    requires !HasHours(hours, businessId)
    ensures (businessId, day) in WithDefaultHours(hours, businessId)
    ensures var row := WithDefaultHours(hours, businessId)[(businessId, day)];
      && Normalized(row) && TimesOfDay(row)
      && (day < Saturday ==> row == HoursRow(true, Some(540), Some(1080), None, None))
      && (day >= Saturday ==> row == HoursRow(false, None, None, None, None))
  {
    AddDefaultDaysShape(hours, businessId, 7, (businessId, day));
  }

  /** Records of other businesses are left alone. */
  lemma DefaultHoursKeepOthers(hours: map<(nat, Weekday), HoursRow>, businessId: nat, key: (nat, Weekday))
    requires key.0 != businessId
    ensures key in WithDefaultHours(hours, businessId) <==> key in hours
    ensures key in hours ==> WithDefaultHours(hours, businessId)[key] == hours[key]
  {
    AddDefaultDaysShape(hours, businessId, 7, key);
  }

  /** Initialising twice does no more than initialising once. */
  lemma WithDefaultHoursIdempotent(hours: map<(nat, Weekday), HoursRow>, businessId: nat)
    ensures WithDefaultHours(WithDefaultHours(hours, businessId), businessId) == WithDefaultHours(hours, businessId)
  {
    if !HasHours(hours, businessId) {
      var key := (businessId, 0 as Weekday);
      AddDefaultDaysShape(hours, businessId, 7, key);
      assert key in WithDefaultHours(hours, businessId);
    }
  }

  // ------------------------------------------------------------ operations

  /** Runs the persist hook on the object and, when it accepts, writes the record
      under its business and weekday. For a new record `businessHoursRepository.save`
      does this at once (@PrePersist); for a loaded record that was changed it
      happens only when the transaction commits (@PreUpdate). */
  method WriteHours(db: Store, key: (nat, Weekday), h: BusinessHours) returns (r: Result<HoursRow>)
    requires db.Valid() && key.0 in db.businesses && TimesOfDay(h.Row())
    modifies db, h
    ensures db.Valid()
    ensures r == Validated(old(h.Row()))
    ensures r.Ok? ==> h.Row() == r.value
    ensures r.Ok? ==> db.State() == old(db.State()).(hours := old(db.hours)[key := r.value])
    ensures r.Err? ==> db.State() == old(db.State())
  {
    ghost var row := h.Row();
    var ok := h.Validate();
    if !ok {
      return Err(IllegalState);
    }
    ValidatedIdempotent(row);
    ValidWithHours(db.State(), key, h.Row());
    db.hours := db.hours[key := h.Row()];
    r := Ok(h.Row());
  }

  /** What `updateBusinessHours` answers for a business that exists. A new record
      is persisted by `save`, so the hook has run and the answer is the validated
      record. A loaded record is managed: `save` hands it back as the setters left
      it, the answer is built from the request's own fields, and the hook runs
      only at commit, where a rejection fails the call after all. */
  function UpdateAnswer(existing: bool, dto: HoursRow): (r: Result<HoursRow>)
    ensures r.Err? <==> Validated(dto).Err?
    ensures r.Err? ==> r.error == IllegalState
    ensures r.Ok? && existing ==> r.value == dto
    ensures r.Ok? && !existing ==> r.value == Validated(dto).value
  {
    match Validated(dto)
    case Err(e) => Err(e)
    case Ok(row) => if existing then Ok(dto) else Ok(row)
  }

  /** The answer shows what is stored exactly when the record is new or the
      request is already in the hook's normal form. */
  lemma UpdateAnswerShowsStored(existing: bool, dto: HoursRow)
    requires Validated(dto).Ok?
    ensures UpdateAnswer(existing, dto) == Validated(dto) <==> !existing || Normalized(dto)
  {
  }

  /** Closing a weekday that already has a record, with its old times left in the
      request, answers with those times although the stored record has none. */
  lemma ClosingStoredDayAnswersStaleTimes()
    ensures var dto := HoursRow(false, Some(9 * 60), Some(18 * 60), None, None);
      && UpdateAnswer(true, dto) == Ok(dto)
      && Validated(dto) == Ok(HoursRow(false, None, None, None, None))
  {
  }

  /** `updateBusinessHours`: loads the weekday's record or starts a new one and
      sets all five fields from the request. A new record is saved with the hook
      run; a loaded one is answered as set and written by the commit. An unknown
      business is ResourceNotFound; a rejected record leaves the table as it was. */
  method UpdateBusinessHours(db: Store, businessId: nat, day: Weekday, dto: HoursRow) returns (r: Result<HoursRow>)
    requires db.Valid()
    requires TimesOfDay(dto)
    modifies db
    ensures db.Valid()
    ensures businessId !in old(db.businesses) ==> r == Err(ResourceNotFound)
    ensures businessId in old(db.businesses) ==> r == UpdateAnswer((businessId, day) in old(db.hours), dto)
    ensures r.Ok? ==> db.State() == old(db.State()).(hours := old(db.hours)[(businessId, day) := Validated(dto).value])
    ensures r.Err? ==> db.State() == old(db.State())
  {
    if businessId !in db.businesses {
      return Err(ResourceNotFound);
    }
    var key := (businessId, day);
    if key in db.hours {
      var h := new BusinessHours.Load(db.hours[key]);
      h.SetAll(dto);
      var answer := h.Row();
      var written := WriteHours(db, key, h);
      if written.Err? {
        return Err(IllegalState);
      }
      r := Ok(answer);
    } else {
      var h := new BusinessHours();
      h.SetAll(dto);
      r := WriteHours(db, key, h);
    }
  }

  /** `initializeDefaultHours`: for a business without any weekday record, saves
      the default record of each of the seven days. */
  method InitializeDefaultHours(db: Store, businessId: nat) returns (r: Result<()>)
    requires db.Valid()
    modifies db
    ensures db.Valid()
    ensures businessId !in old(db.businesses) <==> r.Err?
    ensures r.Err? ==> r.error == ResourceNotFound
    ensures r.Ok? ==> db.State() == old(db.State()).(hours := WithDefaultHours(old(db.hours), businessId))
    ensures r.Err? ==> db.State() == old(db.State())
  {
    if businessId !in db.businesses {
      return Err(ResourceNotFound);
    }
    if exists key :: key in db.hours && key.0 == businessId {
      return Ok(());
    }
    SaveDefaultWeek(db, businessId);
    r := Ok(());
  }

  /** The loop of `initializeDefaultHours`: builds and saves each weekday's
      default record, Monday first. */
  method SaveDefaultWeek(db: Store, businessId: nat)
    requires db.Valid() && businessId in db.businesses
    modifies db
    ensures db.Valid()
    ensures db.State() == old(db.State()).(hours := AddDefaultDays(old(db.hours), businessId, 7))
  {
    for d := 0 to 7
      invariant db.Valid() && businessId in db.businesses
      invariant db.State() == old(db.State()).(hours := AddDefaultDays(old(db.hours), businessId, d))
    {
      SaveDefaultDay(db, businessId, d);
    }
  }

  /** One iteration: builds the weekday's default record and saves it. */
  method SaveDefaultDay(db: Store, businessId: nat, day: Weekday)
    requires db.Valid() && businessId in db.businesses
    modifies db
    ensures db.Valid()
    ensures db.State() == old(db.State()).(hours := old(db.hours)[(businessId, day) := DefaultHoursFor(day)])
  {
    var isWeekday := day != Saturday && day != Sunday;
    var h := new BusinessHours();
    h.SetAll(HoursRow(isWeekday, if isWeekday then Some(9 * 60) else None,
                      if isWeekday then Some(18 * 60) else None, None, None));
    var saved := WriteHours(db, (businessId, day), h);
    assert saved == Ok(DefaultHoursFor(day));
  }

  /** Whether the `closed_dates` table takes a row with this date and reason: the
      date column is NOT NULL and the reason column holds at most 200 characters. */
  predicate ClosedDateInsertable(date: Option<int>, reason: Option<string>)
  {
    date.Some? && (reason.Some? ==> |reason.value| <= 200)
  }

  /** `addClosedDate`: stores a new closed date under a fresh id. The request body
      is not validated, so a missing date or an over-long reason is refused only
      by the insert. A second closed date on the same day is not refused. */
  method AddClosedDate(db: Store, businessId: nat, date: Option<int>, reason: Option<string>) returns (r: Result<ClosedDate>)
    requires db.Valid()
    modifies db
    ensures db.Valid()
    ensures r.Ok? <==> businessId in old(db.businesses) && ClosedDateInsertable(date, reason)
    ensures r.Err? ==> db.State() == old(db.State())
    ensures r.Err? ==> r.error == if businessId !in old(db.businesses) then ResourceNotFound else DataIntegrity
    ensures r.Ok? ==> r.value == ClosedDate(old(db.nextClosedDateId), businessId, date.value, reason)
    ensures r.Ok? ==> db.State() == old(db.State()).(closedDates := old(db.closedDates)[r.value.id := r.value],
                                                     nextClosedDateId := old(db.nextClosedDateId) + 1)
  {
    if businessId !in db.businesses {
      return Err(ResourceNotFound);
    }
    if date.None? || (reason.Some? && |reason.value| > 200) {
      return Err(DataIntegrity);
    }
    var c := ClosedDate(db.nextClosedDateId, businessId, date.value, reason);
    db.closedDates := db.closedDates[c.id := c];
    db.nextClosedDateId := db.nextClosedDateId + 1;
    r := Ok(c);
  }

  /** `deleteClosedDate`: removes the closed date with that id; an unknown id is
      not an error. */
  method DeleteClosedDate(db: Store, closedDateId: nat)
    requires db.Valid()
    modifies db
    ensures db.Valid()
    ensures db.State() == old(db.State()).(closedDates := old(db.closedDates) - {closedDateId})
  {
    db.closedDates := db.closedDates - {closedDateId};
  }

  /** After a closed date is added, its business is closed on that date. */
  lemma AddedClosedDateCloses(closedDates: map<nat, ClosedDate>, hours: map<(nat, Weekday), HoursRow>, c: ClosedDate)
    ensures !IsBusinessOpen(closedDates[c.id := c], hours, c.businessId, c.date)
  {
    assert closedDates[c.id := c][c.id] == c;
  }
}
