/** The BusinessHours entity: one weekday's opening hours of one business, and its
    persist/update hook `validate()`, which either rejects the record or nulls
    every time field of a closed day. */
module BusinessHoursModel {
  import opened Common

  /** The five mutable fields of a BusinessHours record; times are minutes after
      midnight and None stands for a null LocalTime. The owning business and the
      weekday are the record's key in the store. */
  datatype HoursRow = HoursRow(
    isOpen: bool,
    openTime: Option<int>,
    closeTime: Option<int>,
    breakStartTime: Option<int>,
    breakEndTime: Option<int>)

  /** What the builder produces when no field is given: closed, no times. */
  const DefaultRow: HoursRow := HoursRow(false, None, None, None, None)

  /** The outcome of `validate()` on a record: IllegalState for an open day
      without both times, the record with its times nulled for a closed day, and
      the record itself otherwise. */
  function Validated(row: HoursRow): (r: Result<HoursRow>)
    ensures r.Err? ==> r.error == IllegalState
    ensures r.Ok? ==> r.value.isOpen == row.isOpen
    ensures r.Ok? && r.value.isOpen ==> r.value.openTime.Some? && r.value.closeTime.Some?
  {
    if row.isOpen && (row.openTime.None? || row.closeTime.None?) then
      Err(IllegalState)
    else if !row.isOpen then
      Ok(row.(openTime := None, closeTime := None, breakStartTime := None, breakEndTime := None))
    else
      Ok(row)
  }

  /** A record that `validate()` accepts unchanged: what every persisted record is. */
  predicate Normalized(row: HoursRow)
  {
    Validated(row) == Ok(row)
  }

  /** `validate()` rejects exactly the open records that lack a time. */
  lemma ValidatedRejects(row: HoursRow)
    ensures Validated(row).Err? <==> row.isOpen && (row.openTime.None? || row.closeTime.None?)
  {
  }

  /** On a closed record `validate()` nulls the four time fields. */
  lemma ValidatedClearsClosedDay(row: HoursRow)
    requires !row.isOpen
    ensures Validated(row) == Ok(HoursRow(false, None, None, None, None))
  {
  }

  /** An open record with both times is kept as it is, breaks included. */
  lemma ValidatedKeepsOpenDay(row: HoursRow)
    requires row.isOpen && row.openTime.Some? && row.closeTime.Some?
    ensures Validated(row) == Ok(row)
  {
  }

  /** Applying `validate()` to its own output changes nothing. */
  lemma ValidatedIdempotent(row: HoursRow)
    requires Validated(row).Ok?
    ensures Normalized(Validated(row).value)
  {
  }

  /** `validate()` checks neither the order of the two times nor where the break
      lies: a record that closes before it opens, with a break outside the day,
      is accepted. */
  lemma ValidatedIgnoresOrder()
    ensures Validated(HoursRow(true, Some(18 * 60), Some(9 * 60), Some(20 * 60), Some(19 * 60)))
         == Ok(HoursRow(true, Some(18 * 60), Some(9 * 60), Some(20 * 60), Some(19 * 60)))
  {
  }

  /** The entity object whose fields the services set before saving it. */
  class BusinessHours {
    var isOpen: bool
    var openTime: Option<int>
    var closeTime: Option<int>
    var breakStartTime: Option<int>
    var breakEndTime: Option<int>

    function Row(): HoursRow
      reads this
    {
      HoursRow(isOpen, openTime, closeTime, breakStartTime, breakEndTime)
    }

    /** `BusinessHours.builder().build()`: `isOpen` defaults to false. */
    constructor ()
      ensures Row() == DefaultRow
    {
      isOpen := false;
      openTime := None;
      closeTime := None;
      breakStartTime := None;
      breakEndTime := None;
    }

    /** The object loaded from a stored record. */
    constructor Load(row: HoursRow)
      ensures Row() == row
    {
      isOpen := row.isOpen;
      openTime := row.openTime;
      closeTime := row.closeTime;
      breakStartTime := row.breakStartTime;
      breakEndTime := row.breakEndTime;
    }

    /** Sets the five fields, as the five setters in a row do. */
    method SetAll(row: HoursRow)
      modifies this
      ensures Row() == row
    {
      isOpen := row.isOpen;
      openTime := row.openTime;
      closeTime := row.closeTime;
      breakStartTime := row.breakStartTime;
      breakEndTime := row.breakEndTime;
    }

    /** The @PrePersist/@PreUpdate hook. `ok` is false where the source throws
        IllegalStateException; the fields are then untouched. */
    method Validate() returns (ok: bool)
      modifies this
      ensures ok <==> Validated(old(Row())).Ok?
      ensures ok ==> Row() == Validated(old(Row())).value
      ensures !ok ==> Row() == old(Row())
    {
      if isOpen && (openTime.None? || closeTime.None?) {
        return false;
      }
      if !isOpen {
        openTime := None;
        closeTime := None;
        breakStartTime := None;
        breakEndTime := None;
      }
      return true;
    }
  }
}
