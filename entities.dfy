/** The persisted records of the salon back end, as values. Each table of the
    store holds these; the services replace a record by an updated copy where the
    source calls a setter and saves. */
module Entities {
  import opened Common

  /** A tenant. `owner` is the id of the owning user once it is linked. */
  datatype Business = Business(
    id: nat,
    name: string,
    slug: string,
    active: bool,
    owner: Option<nat>)

  datatype Role = SystemAdmin | BusinessOwner | Staff

  /** A login account. `business` is the id of the business the user belongs to.
      The password hash is not modelled. */
  datatype User = User(
    id: nat,
    username: string,
    email: string,
    role: Role,
    business: Option<nat>,
    active: bool)

  /** A bookable service of one business; `price` is a BigDecimal in the source. */
  datatype Service = Service(
    id: nat,
    businessId: nat,
    name: string,
    durationMinutes: int,
    price: real,
    active: bool)

  datatype BookingStatus = Confirmed | Cancelled | Completed

  /** A reservation; `startTime` and `endTime` are instants. */
  datatype Booking = Booking(
    id: nat,
    businessId: nat,
    serviceId: nat,
    startTime: int,
    endTime: int,
    customerName: string,
    customerPhone: string,
    status: BookingStatus)

  /** A date on which a business is closed whatever its weekly hours say. */
  datatype ClosedDate = ClosedDate(
    id: nat,
    businessId: nat,
    date: int,
    reason: Option<string>)
}
