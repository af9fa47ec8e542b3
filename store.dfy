/** The persistence layer: every repository the services use, held as one object
    whose fields the services update. Ids are handed out from counters, as the
    IDENTITY columns do, and are never reused. */
module Store {
  import opened Common
  import opened Entities
  import opened BusinessHoursModel

  /** A snapshot of every table and id counter. */
  datatype StoreState = StoreState(
    businesses: map<nat, Business>,
    users: map<nat, User>,
    services: map<nat, Service>,
    bookings: seq<Booking>,
    hours: map<(nat, Weekday), HoursRow>,
    closedDates: map<nat, ClosedDate>,
    nextBusinessId: nat,
    nextUserId: nat,
    nextServiceId: nat,
    nextClosedDateId: nat)

  /** No two CONFIRMED bookings of one business overlap: the property that
      admission maintains. */
  predicate NoDoubleBooking(bs: seq<Booking>)
  {
    forall i, j :: 0 <= i < j < |bs| && bs[i].businessId == bs[j].businessId
      && bs[i].status == Confirmed && bs[j].status == Confirmed
      ==> !Overlaps(bs[i].startTime, bs[i].endTime, bs[j].startTime, bs[j].endTime)
  }

  /** A non-null LocalTime lies within one day. */
  predicate TimeOfDay(t: Option<int>)
  {
    t.Some? ==> 0 <= t.value < MinutesPerDay
  }

  predicate TimesOfDay(row: HoursRow)
  {
    TimeOfDay(row.openTime) && TimeOfDay(row.closeTime)
    && TimeOfDay(row.breakStartTime) && TimeOfDay(row.breakEndTime)
  }

  predicate UniqueSlugs(bs: map<nat, Business>)
  {
    forall k1, k2 :: k1 in bs && k2 in bs && bs[k1].slug == bs[k2].slug ==> k1 == k2
  }

  predicate UniqueUsernames(us: map<nat, User>)
  {
    forall k1, k2 :: k1 in us && k2 in us && us[k1].username == us[k2].username ==> k1 == k2
  }

  predicate UniqueEmails(us: map<nat, User>)
  {
    forall k1, k2 :: k1 in us && k2 in us && us[k1].email == us[k2].email ==> k1 == k2
  }

  /** What holds of the tables between any two service calls: keys are ids below
      their counter, slugs, usernames and e-mails are unique (the unique columns),
      services have the validated duration range, stored hours passed the persist
      hook, bookings are numbered 1, 2, ... in insertion order, and no two
      CONFIRMED bookings of a business overlap. */
  ghost predicate ValidState(s: StoreState)
  {
    && (forall k :: k in s.businesses ==> s.businesses[k].id == k && k < s.nextBusinessId)
    && UniqueSlugs(s.businesses)
    && (forall k :: k in s.users ==> s.users[k].id == k && k < s.nextUserId)
    && UniqueUsernames(s.users)
    && UniqueEmails(s.users)
    && (forall k :: k in s.services ==> s.services[k].id == k && k < s.nextServiceId)
    && (forall k :: k in s.services ==> 5 <= s.services[k].durationMinutes <= 480)
    && (forall k :: k in s.closedDates ==> s.closedDates[k].id == k && k < s.nextClosedDateId)
    && (forall key :: key in s.hours ==> key.0 < s.nextBusinessId)
    && (forall key :: key in s.hours ==> Normalized(s.hours[key]) && TimesOfDay(s.hours[key]))
    && (forall i :: 0 <= i < |s.bookings| ==> s.bookings[i].id == i + 1)
    && NoDoubleBooking(s.bookings)
  }

  class Store {
    var businesses: map<nat, Business>
    var users: map<nat, User>
    var services: map<nat, Service>
    var bookings: seq<Booking>
    var hours: map<(nat, Weekday), HoursRow>
    var closedDates: map<nat, ClosedDate>
    var nextBusinessId: nat
    var nextUserId: nat
    var nextServiceId: nat
    var nextClosedDateId: nat

    function State(): StoreState
      reads this
    {
      StoreState(businesses, users, services, bookings, hours, closedDates,
                 nextBusinessId, nextUserId, nextServiceId, nextClosedDateId)
    }

    ghost predicate Valid()
      reads this
    {
      ValidState(State())
    }

    /** An empty database. */
    constructor ()
      ensures Valid()
      ensures State() == StoreState(map[], map[], map[], [], map[], map[], 1, 1, 1, 1)
    {
      businesses, users, services, bookings, hours, closedDates := map[], map[], map[], [], map[], map[];
      nextBusinessId, nextUserId, nextServiceId, nextClosedDateId := 1, 1, 1, 1;
    }
  }

  // ------------------------------------------------------------ updates that keep the store valid

  /** Storing a weekday record that the persist hook accepts, for a business id
      already handed out, keeps the store valid. */
  lemma ValidWithHours(s: StoreState, key: (nat, Weekday), row: HoursRow)
    requires ValidState(s) && key.0 < s.nextBusinessId && Normalized(row) && TimesOfDay(row)
    ensures ValidState(s.(hours := s.hours[key := row]))
  {
  }

  /** Appending a booking numbered after the last one keeps the store valid when
      it double-books no CONFIRMED booking. */
  lemma ValidWithBooking(s: StoreState, b: Booking)
    requires ValidState(s) && b.id == |s.bookings| + 1 && NoDoubleBooking(s.bookings + [b])
    ensures ValidState(s.(bookings := s.bookings + [b]))
  {
  }

  /** Setting a booking's status to anything but CONFIRMED keeps the store valid. */
  lemma ValidWithStatus(s: StoreState, i: nat, status: BookingStatus)
    requires ValidState(s) && i < |s.bookings| && status != Confirmed
    ensures ValidState(s.(bookings := s.bookings[i := s.bookings[i].(status := status)]))
  {
  }

  /** Inserting or replacing a business under an id already below the (possibly
      advanced) counter keeps the store valid when no other business has its slug. */
  lemma ValidWithBusiness(s: StoreState, b: Business, next: nat)
    requires ValidState(s) && b.id < next && s.nextBusinessId <= next
    requires forall k :: k in s.businesses && k != b.id ==> s.businesses[k].slug != b.slug
    ensures ValidState(s.(businesses := s.businesses[b.id := b], nextBusinessId := next))
  {
  }

  lemma ValidWithoutBusiness(s: StoreState, id: nat)
    requires ValidState(s)
    ensures ValidState(s.(businesses := s.businesses - {id}))
  {
  }

  /** Inserting a user under the next id keeps the store valid when its username
      and e-mail are both new. */
  lemma ValidWithUser(s: StoreState, u: User)
    requires ValidState(s) && u.id == s.nextUserId
    requires !UsernameExists(s.users, u.username) && !EmailExists(s.users, u.email)
    ensures ValidState(s.(users := s.users[u.id := u], nextUserId := u.id + 1))
  {
  }

  /** Inserting or replacing a service keeps the store valid when its duration is
      in the validated range. */
  lemma ValidWithService(s: StoreState, svc: Service, next: nat)
    requires ValidState(s) && svc.id < next && s.nextServiceId <= next
    requires 5 <= svc.durationMinutes <= 480
    ensures ValidState(s.(services := s.services[svc.id := svc], nextServiceId := next))
  {
  }

  lemma ValidWithoutService(s: StoreState, id: nat)
    requires ValidState(s)
    ensures ValidState(s.(services := s.services - {id}))
  {
  }

  // ------------------------------------------------------------ lookups

  /** `businessRepository.existsBySlug`. */
  predicate SlugExists(bs: map<nat, Business>, slug: string)
  {
    exists k :: k in bs && bs[k].slug == slug
  }

  /** `businessRepository.findBySlug`: the business with that slug, if any. */
  ghost function LookupSlug(bs: map<nat, Business>, slug: string): (r: Option<Business>)
    ensures r.Some? ==> r.value.slug == slug && exists k :: k in bs && bs[k] == r.value
    ensures r.None? <==> !SlugExists(bs, slug)
  {
    if SlugExists(bs, slug) then
      var k :| k in bs && bs[k].slug == slug; Some(bs[k])
    else
      None
  }

  /** With unique slugs, the business with the slug is the one found. */
  lemma LookupSlugIs(bs: map<nat, Business>, slug: string, k: nat)
    requires UniqueSlugs(bs) && k in bs && bs[k].slug == slug
    ensures LookupSlug(bs, slug) == Some(bs[k])
  {
  }

  method FindBySlug(db: Store, slug: string) returns (r: Option<Business>)
    requires db.Valid()
    ensures r == LookupSlug(db.businesses, slug)
    ensures r.Some? ==> r.value.id in db.businesses && db.businesses[r.value.id] == r.value
  {
    if k :| k in db.businesses && db.businesses[k].slug == slug {
      LookupSlugIs(db.businesses, slug, k);
      r := Some(db.businesses[k]);
    } else {
      r := None;
    }
  }

  /** `userRepository.existsByUsername`. */
  predicate UsernameExists(us: map<nat, User>, username: string)
  {
    exists k :: k in us && us[k].username == username
  }

  /** `userRepository.existsByEmail`. */
  predicate EmailExists(us: map<nat, User>, email: string)
  {
    exists k :: k in us && us[k].email == email
  }

  /** `userRepository.findByUsername`. */
  ghost function LookupUsername(us: map<nat, User>, username: string): (r: Option<User>)
    ensures r.Some? ==> r.value.username == username && exists k :: k in us && us[k] == r.value
    ensures r.None? <==> !UsernameExists(us, username)
  {
    if UsernameExists(us, username) then
      var k :| k in us && us[k].username == username; Some(us[k])
    else
      None
  }

  lemma LookupUsernameIs(us: map<nat, User>, username: string, k: nat)
    requires UniqueUsernames(us) && k in us && us[k].username == username
    ensures LookupUsername(us, username) == Some(us[k])
  {
  }

  method FindByUsername(db: Store, username: string) returns (r: Option<User>)
    requires db.Valid()
    ensures r == LookupUsername(db.users, username)
  {
    if k :| k in db.users && db.users[k].username == username {
      LookupUsernameIs(db.users, username, k);
      r := Some(db.users[k]);
    } else {
      r := None;
    }
  }

  /** `serviceRepository.findByIdAndBusinessId`. */
  function ServiceOf(services: map<nat, Service>, id: nat, businessId: nat): Option<Service>
  {
    if id in services && services[id].businessId == businessId then Some(services[id]) else None
  }

  /** `serviceRepository.findByBusinessIdAndActiveTrue`. */
  function ActiveServices(services: map<nat, Service>, businessId: nat): set<Service>
  {
    set k | k in services && services[k].businessId == businessId && services[k].active :: services[k]
  }

  /** The active-services query lists exactly the active services of that business. */
  lemma ActiveServicesExactly(services: map<nat, Service>, businessId: nat, s: Service)
    requires forall k :: k in services ==> services[k].id == k
    ensures s in ActiveServices(services, businessId) <==>
      s.id in services && services[s.id] == s && s.businessId == businessId && s.active
  {
  }
}
