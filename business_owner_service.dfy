/** What a logged-in business owner can do: read their business and services,
    add, edit and delete services, list their bookings, and mark bookings
    COMPLETED or CANCELLED. Every operation first resolves the owner's business
    from the username, and every edit checks that the record belongs to it. */
module BusinessOwnerService {
  import opened Common
  import opened Entities
  import opened Requests
  import opened BookingRepository
  import opened Store
  import opened BusinessService

  /** `getUserByUsername` followed by `getBusinessByOwner`: the id of the business
      the user is linked to. */
  ghost function OwnerBusiness(users: map<nat, User>, username: string): (r: Result<nat>)
    ensures r.Err? ==> r.error == ResourceNotFound
  {
    match LookupUsername(users, username)
    case None => Err(ResourceNotFound)
    case Some(owner) =>
      if owner.business.None? then Err(ResourceNotFound) else Ok(owner.business.value)
  }

  /** An unknown username and a user linked to no business are the two ways the
      lookup fails; otherwise it yields the business of the user with that name. */
  lemma OwnerBusinessExactly(users: map<nat, User>, username: string)
    requires UniqueUsernames(users)
    ensures OwnerBusiness(users, username).Err? <==>
      forall k :: k in users && users[k].username == username ==> users[k].business.None?
    ensures forall k :: k in users && users[k].username == username && users[k].business.Some? ==>
      OwnerBusiness(users, username) == Ok(users[k].business.value)
  {
    forall k | k in users && users[k].username == username {
      LookupUsernameIs(users, username, k);
    }
  }

  method ResolveOwner(db: Store, username: string) returns (r: Result<nat>)
    requires db.Valid()
    ensures r == OwnerBusiness(db.users, username)
  {
    var owner := FindByUsername(db, username);
    if owner.None? {
      return Err(ResourceNotFound);
    }
    if owner.value.business.None? {
      return Err(ResourceNotFound);
    }
    r := Ok(owner.value.business.value);
  }

  // ------------------------------------------------------------ reads

  /** `getMyBusiness`. A link to a business that no longer exists is reported as
      not found. */
  method GetMyBusiness(db: Store, username: string, publicUrl: string) returns (r: Result<BusinessResponse>)
    requires db.Valid()
    ensures OwnerBusiness(db.users, username).Err? ==> r == Err(ResourceNotFound)
    ensures OwnerBusiness(db.users, username).Ok? ==>
      var bid := OwnerBusiness(db.users, username).value;
      r == if bid in db.businesses then Ok(ToResponse(db.businesses[bid], publicUrl)) else Err(ResourceNotFound)
    ensures r.Ok? ==> r.value.bookingUrl == BookingUrl(publicUrl, r.value.slug)
  {
    var owner := ResolveOwner(db, username);
    if owner.Err? {
      return Err(ResourceNotFound);
    }
    if owner.value !in db.businesses {
      return Err(ResourceNotFound);
    }
    r := Ok(ToResponse(db.businesses[owner.value], publicUrl));
  }

  /** `getMyServices`: the active services of the owner's business. */
  method GetMyServices(db: Store, username: string) returns (r: Result<set<Service>>)
    requires db.Valid()
    ensures OwnerBusiness(db.users, username).Err? ==> r == Err(ResourceNotFound)
    ensures OwnerBusiness(db.users, username).Ok? ==>
      r == Ok(ActiveServices(db.services, OwnerBusiness(db.users, username).value))
    ensures r.Ok? ==> forall s :: s in r.value ==>
      s.id in db.services && db.services[s.id] == s && s.active
      && s.businessId == OwnerBusiness(db.users, username).value
  {
    var owner := ResolveOwner(db, username);
    if owner.Err? {
      return Err(ResourceNotFound);
    }
    r := Ok(ActiveServices(db.services, owner.value));
    forall s | s in r.value
      ensures s.id in db.services && db.services[s.id] == s && s.active && s.businessId == owner.value
    {
      ActiveServicesExactly(db.services, owner.value, s);
    }
  }

  /** `getAllMyBookings`. */
  method GetAllMyBookings(db: Store, username: string) returns (r: Result<seq<Booking>>)
    requires db.Valid()
    ensures OwnerBusiness(db.users, username).Err? ==> r == Err(ResourceNotFound)
    ensures OwnerBusiness(db.users, username).Ok? ==>
      r == Ok(FindByBusinessId(db.bookings, OwnerBusiness(db.users, username).value))
    ensures r.Ok? ==> forall b :: b in r.value ==> b in db.bookings && b.businessId == OwnerBusiness(db.users, username).value
  {
    var owner := ResolveOwner(db, username);
    if owner.Err? {
      return Err(ResourceNotFound);
    }
    r := Ok(FindByBusinessId(db.bookings, owner.value));
  }

  /** `getMyBookingsByDate`: the bookings that start on the date, midnight to
      midnight, both ends included. */
  method GetMyBookingsByDate(db: Store, username: string, date: int) returns (r: Result<seq<Booking>>)
    requires db.Valid()
    ensures OwnerBusiness(db.users, username).Err? ==> r == Err(ResourceNotFound)
    ensures OwnerBusiness(db.users, username).Ok? ==>
      r == Ok(FindByBusinessIdAndStartTimeBetween(db.bookings, OwnerBusiness(db.users, username).value,
                                                   StartOfDay(date), StartOfDay(date + 1)))
    ensures r.Ok? ==> forall b :: b in r.value ==>
      b in db.bookings && StartOfDay(date) <= b.startTime <= StartOfDay(date + 1)
  {
    var owner := ResolveOwner(db, username);
    if owner.Err? {
      return Err(ResourceNotFound);
    }
    r := Ok(FindByBusinessIdAndStartTimeBetween(db.bookings, owner.value, StartOfDay(date), StartOfDay(date + 1)));
  }

  // ------------------------------------------------------------ services

  /** `addService`: a new active service of the owner's business. */
  method AddService(db: Store, username: string, request: ServiceRequest) returns (r: Result<Service>)
    requires db.Valid() && ServiceRequestValid(request)
    modifies db
    ensures db.Valid()
    ensures r.Err? <==> OwnerBusiness(old(db.users), username).Err?
    ensures r.Err? ==> r.error == ResourceNotFound && db.State() == old(db.State())
    ensures r.Ok? ==>
      r.value == Service(old(db.nextServiceId), OwnerBusiness(old(db.users), username).value,
                         request.name.value, request.durationMinutes.value, request.price.value, true)
      && db.State() == old(db.State()).(services := old(db.services)[r.value.id := r.value],
                                        nextServiceId := r.value.id + 1)
  {
    var owner := ResolveOwner(db, username);
    if owner.Err? {
      return Err(ResourceNotFound);
    }
    var service := Service(db.nextServiceId, owner.value, request.name.value,
                           request.durationMinutes.value, request.price.value, true);
    ValidWithService(db.State(), service, db.nextServiceId + 1);
    db.services, db.nextServiceId := db.services[service.id := service], db.nextServiceId + 1;
    r := Ok(service);
  }

  /** Why an owner's edit of the service with this id is refused, if it is:
      the owner lookup fails, there is no such service, or it belongs to another
      business. */
  ghost function ServiceRefusal(s: StoreState, username: string, serviceId: nat): Option<Error>
  {
    match OwnerBusiness(s.users, username)
    case Err(e) => Some(e)
    case Ok(bid) =>
      if serviceId !in s.services then Some(ResourceNotFound)
      else if s.services[serviceId].businessId != bid then Some(Unauthorized)
      else None
  }

  /** The edit of a service is refused exactly when the caller does not own it;
      a service of another business is Unauthorized, not missing. */
  lemma ServiceRefusalExactly(s: StoreState, username: string, serviceId: nat)
    ensures ServiceRefusal(s, username, serviceId).None? <==>
      OwnerBusiness(s.users, username).Ok? && serviceId in s.services
      && s.services[serviceId].businessId == OwnerBusiness(s.users, username).value
    ensures (OwnerBusiness(s.users, username).Ok? && serviceId in s.services
             && s.services[serviceId].businessId != OwnerBusiness(s.users, username).value) ==>
      ServiceRefusal(s, username, serviceId) == Some(Unauthorized)
  {
  }

  method CheckServiceOwner(db: Store, username: string, serviceId: nat) returns (refusal: Option<Error>)
    requires db.Valid()
    ensures refusal == ServiceRefusal(db.State(), username, serviceId)
  {
    var owner := ResolveOwner(db, username);
    if owner.Err? {
      return Some(owner.error);
    }
    if serviceId !in db.services {
      return Some(ResourceNotFound);
    }
    if db.services[serviceId].businessId != owner.value {
      return Some(Unauthorized);
    }
    refusal := None;
  }

  /** `updateService`: name, duration and price change; the id, the business and
      the active flag are kept. */
  method UpdateService(db: Store, username: string, serviceId: nat, request: ServiceRequest) returns (r: Result<Service>)
    requires db.Valid() && ServiceRequestValid(request)
    modifies db
    ensures db.Valid()
    ensures r.Err? <==> ServiceRefusal(old(db.State()), username, serviceId).Some?
    ensures r.Err? ==> Some(r.error) == ServiceRefusal(old(db.State()), username, serviceId)
                       && db.State() == old(db.State())
    ensures r.Ok? ==>
      r.value == old(db.services)[serviceId].(name := request.name.value,
                                              durationMinutes := request.durationMinutes.value,
                                              price := request.price.value)
      && db.State() == old(db.State()).(services := old(db.services)[serviceId := r.value])
  {
    var refusal := CheckServiceOwner(db, username, serviceId);
    if refusal.Some? {
      return Err(refusal.value);
    }
    var service := db.services[serviceId].(name := request.name.value,
                                           durationMinutes := request.durationMinutes.value,
                                           price := request.price.value);
    ValidWithService(db.State(), service, db.nextServiceId);
    db.services := db.services[serviceId := service];
    r := Ok(service);
  }

  /** `deleteService`: removes exactly that service. */
  method DeleteService(db: Store, username: string, serviceId: nat) returns (r: Result<()>)
    requires db.Valid()
    modifies db
    ensures db.Valid()
    ensures r.Err? <==> ServiceRefusal(old(db.State()), username, serviceId).Some?
    ensures r.Err? ==> Some(r.error) == ServiceRefusal(old(db.State()), username, serviceId)
                       && db.State() == old(db.State())
    ensures r.Ok? ==> db.State() == old(db.State()).(services := old(db.services) - {serviceId})
  {
    var refusal := CheckServiceOwner(db, username, serviceId);
    if refusal.Some? {
      return Err(refusal.value);
    }
    ValidWithoutService(db.State(), serviceId);
    db.services := db.services - {serviceId};
    r := Ok(());
  }

  // ------------------------------------------------------------ bookings

  /** Why an owner's status change of the booking with this id is refused, if it
      is. Bookings are numbered 1, 2, ... in table order. */
  ghost function BookingRefusal(s: StoreState, username: string, bookingId: nat): Option<Error>
  {
    match OwnerBusiness(s.users, username)
    case Err(e) => Some(e)
    case Ok(bid) =>
      if !(1 <= bookingId <= |s.bookings|) then Some(ResourceNotFound)
      else if s.bookings[bookingId - 1].businessId != bid then Some(Unauthorized)
      else None
  }

  /** The store after an owner's status change of the booking with this id: as
      it was when the change is refused, and otherwise with only that booking's
      status overwritten. */
  ghost function StatusChanged(s: StoreState, username: string, bookingId: nat, status: BookingStatus): StoreState
  {
    if BookingRefusal(s, username, bookingId).Some? then s
    else s.(bookings := s.bookings[bookingId - 1 := s.bookings[bookingId - 1].(status := status)])
  }

  /** The shared body of `completeBooking` and `cancelBooking`: overwrite the
      status whatever it was, leaving every other field and booking alone. */
  method SetStatus(db: Store, username: string, bookingId: nat, status: BookingStatus) returns (r: Result<Booking>)
    requires db.Valid() && status != Confirmed
    modifies db
    ensures db.Valid()
    ensures r.Err? <==> BookingRefusal(old(db.State()), username, bookingId).Some?
    ensures r.Err? ==> Some(r.error) == BookingRefusal(old(db.State()), username, bookingId)
                       && db.State() == old(db.State())
    ensures r.Ok? ==>
      r.value == old(db.bookings)[bookingId - 1].(status := status)
      && db.State() == old(db.State()).(bookings := old(db.bookings)[bookingId - 1 := r.value])
    ensures db.State() == StatusChanged(old(db.State()), username, bookingId, status)
  {
    var owner := ResolveOwner(db, username);
    if owner.Err? {
      return Err(owner.error);
    }
    IndexOfSequentialId(db.bookings, bookingId);
    var found := IndexOfId(db.bookings, bookingId);
    if found.None? {
      return Err(ResourceNotFound);
    }
    var i := found.value;
    if db.bookings[i].businessId != owner.value {
      return Err(Unauthorized);
    }
    var booking := db.bookings[i].(status := status);
    ValidWithStatus(db.State(), i, status);
    db.bookings := db.bookings[i := booking];
    r := Ok(booking);
  }

  /** `completeBooking`. */
  method CompleteBooking(db: Store, username: string, bookingId: nat) returns (r: Result<Booking>)
    requires db.Valid()
    modifies db
    ensures db.Valid()
    ensures r.Err? <==> BookingRefusal(old(db.State()), username, bookingId).Some?
    ensures r.Err? ==> Some(r.error) == BookingRefusal(old(db.State()), username, bookingId)
                       && db.State() == old(db.State())
    ensures r.Ok? ==>
      r.value == old(db.bookings)[bookingId - 1].(status := Completed)
      && db.State() == old(db.State()).(bookings := old(db.bookings)[bookingId - 1 := r.value])
    ensures db.State() == StatusChanged(old(db.State()), username, bookingId, Completed)
  {
    r := SetStatus(db, username, bookingId, Completed);
  }

  /** `cancelBooking` of the owner's dashboard. */
  method CancelBooking(db: Store, username: string, bookingId: nat) returns (r: Result<Booking>)
    requires db.Valid()
    modifies db
    ensures db.Valid()
    ensures r.Err? <==> BookingRefusal(old(db.State()), username, bookingId).Some?
    ensures r.Err? ==> Some(r.error) == BookingRefusal(old(db.State()), username, bookingId)
                       && db.State() == old(db.State())
    ensures r.Ok? ==>
      r.value == old(db.bookings)[bookingId - 1].(status := Cancelled)
      && db.State() == old(db.State()).(bookings := old(db.bookings)[bookingId - 1 := r.value])
    ensures db.State() == StatusChanged(old(db.State()), username, bookingId, Cancelled)
  {
    r := SetStatus(db, username, bookingId, Cancelled);
  }

  /** An owner can change the status exactly of the bookings of their own business, and
      a booking of another business is refused as Unauthorized. */
  lemma BookingRefusalExactly(s: StoreState, username: string, bookingId: nat)
    ensures BookingRefusal(s, username, bookingId).None? <==>
      OwnerBusiness(s.users, username).Ok? && 1 <= bookingId <= |s.bookings|
      && s.bookings[bookingId - 1].businessId == OwnerBusiness(s.users, username).value
    ensures (OwnerBusiness(s.users, username).Ok? && 1 <= bookingId <= |s.bookings|
             && s.bookings[bookingId - 1].businessId != OwnerBusiness(s.users, username).value) ==>
      BookingRefusal(s, username, bookingId) == Some(Unauthorized)
  {
  }

  /** The status is overwritten without looking at the old one: cancelling a
      booking the owner has completed leaves the store as cancelling it at once
      would, and so does completing a cancelled one; a refusal stays a refusal. */
  lemma {:induction false} LaterStatusChangeWins(s: StoreState, username: string, bookingId: nat,
                                                 first: BookingStatus, second: BookingStatus)
    ensures BookingRefusal(StatusChanged(s, username, bookingId, first), username, bookingId)
         == BookingRefusal(s, username, bookingId)
    ensures StatusChanged(StatusChanged(s, username, bookingId, first), username, bookingId, second)
         == StatusChanged(s, username, bookingId, second)
  {
    if BookingRefusal(s, username, bookingId).None? {
      var t := StatusChanged(s, username, bookingId, first);
      assert t.users == s.users && |t.bookings| == |s.bookings|;
      assert t.bookings[bookingId - 1].businessId == s.bookings[bookingId - 1].businessId;
    }
  }
}
