/** Service catalogue operations addressed by business slug. Unlike the owner's
    dashboard, a service is looked up by id and business together, so a service
    of another business is simply not found. */
module ServiceManagementService {
  import opened Common
  import opened Entities
  import opened Requests
  import opened Store

  /** The service of the business with the slug that an update or delete
      addresses: the business must exist and the service must be its own. */
  ghost function Addressed(s: StoreState, slug: string, serviceId: nat): (r: Result<Service>)
    ensures r.Ok? ==> serviceId in s.services && s.services[serviceId] == r.value
    ensures r.Err? ==> r.error == ResourceNotFound
  {
    match LookupSlug(s.businesses, slug)
    case None => Err(ResourceNotFound)
    case Some(business) =>
      match ServiceOf(s.services, serviceId, business.id)
      case None => Err(ResourceNotFound)
      case Some(service) => Ok(service)
  }

  /** A service is addressed exactly when it belongs to the business with that
      slug; a foreign service is not found, whatever its id. */
  lemma {:induction false} AddressedExactly(s: StoreState, slug: string, serviceId: nat)
    requires ValidState(s)
    ensures Addressed(s, slug, serviceId).Ok? <==>
      serviceId in s.services && s.services[serviceId].businessId in s.businesses
      && s.businesses[s.services[serviceId].businessId].slug == slug
  {
    if serviceId in s.services && s.services[serviceId].businessId in s.businesses
      && s.businesses[s.services[serviceId].businessId].slug == slug
    {
      var k := s.services[serviceId].businessId;
      LookupSlugIs(s.businesses, slug, k);
    }
  }

  method FindAddressed(db: Store, slug: string, serviceId: nat) returns (r: Result<Service>)
    requires db.Valid()
    ensures r == Addressed(db.State(), slug, serviceId)
  {
    var business := FindBySlug(db, slug);
    if business.None? {
      return Err(ResourceNotFound);
    }
    var service := ServiceOf(db.services, serviceId, business.value.id);
    if service.None? {
      return Err(ResourceNotFound);
    }
    r := Ok(service.value);
  }

  /** `createService`: a new active service of the business with the slug. */
  method CreateService(db: Store, slug: string, request: ServiceRequest) returns (r: Result<Service>)
    requires db.Valid() && ServiceRequestValid(request)
    modifies db
    ensures db.Valid()
    ensures r.Err? <==> !SlugExists(old(db.businesses), slug)
    ensures r.Err? ==> r.error == ResourceNotFound && db.State() == old(db.State())
    ensures r.Ok? ==>
      r.value == Service(old(db.nextServiceId), LookupSlug(old(db.businesses), slug).value.id,
                         request.name.value, request.durationMinutes.value, request.price.value, true)
      && db.State() == old(db.State()).(services := old(db.services)[r.value.id := r.value],
                                        nextServiceId := r.value.id + 1)
  {
    var business := FindBySlug(db, slug);
    if business.None? {
      return Err(ResourceNotFound);
    }
    var service := Service(db.nextServiceId, business.value.id, request.name.value,
                           request.durationMinutes.value, request.price.value, true);
    ValidWithService(db.State(), service, db.nextServiceId + 1);
    db.services, db.nextServiceId := db.services[service.id := service], db.nextServiceId + 1;
    r := Ok(service);
  }

  /** `getActiveServices`. */
  method GetActiveServices(db: Store, slug: string) returns (r: Result<set<Service>>)
    requires db.Valid()
    ensures r.Err? <==> !SlugExists(db.businesses, slug)
    ensures r.Err? ==> r.error == ResourceNotFound
    ensures r.Ok? ==> r.value == ActiveServices(db.services, LookupSlug(db.businesses, slug).value.id)
    ensures r.Ok? ==> forall s :: s in r.value ==>
      s.id in db.services && db.services[s.id] == s && s.active
      && s.businessId in db.businesses && db.businesses[s.businessId].slug == slug
  {
    var business := FindBySlug(db, slug);
    if business.None? {
      return Err(ResourceNotFound);
    }
    r := Ok(ActiveServices(db.services, business.value.id));
    forall s | s in r.value
      ensures s.id in db.services && db.services[s.id] == s && s.active
        && s.businessId in db.businesses && db.businesses[s.businessId].slug == slug
    {
      ActiveServicesExactly(db.services, business.value.id, s);
    }
  }

  /** `updateService`: only name, duration and price change. */
  method UpdateService(db: Store, slug: string, serviceId: nat, request: ServiceRequest) returns (r: Result<Service>)
    requires db.Valid() && ServiceRequestValid(request)
    modifies db
    ensures db.Valid()
    ensures r.Err? <==> Addressed(old(db.State()), slug, serviceId).Err?
    ensures r.Err? ==> r.error == ResourceNotFound && db.State() == old(db.State())
    ensures r.Ok? ==>
      r.value == old(db.services)[serviceId].(name := request.name.value,
                                              durationMinutes := request.durationMinutes.value,
                                              price := request.price.value)
      && db.State() == old(db.State()).(services := old(db.services)[serviceId := r.value])
  {
    var found := FindAddressed(db, slug, serviceId);
    if found.Err? {
      return Err(ResourceNotFound);
    }
    var service := found.value.(name := request.name.value,
                                durationMinutes := request.durationMinutes.value,
                                price := request.price.value);
    ValidWithService(db.State(), service, db.nextServiceId);
    db.services := db.services[serviceId := service];
    r := Ok(service);
  }

  /** `deleteService`: removes exactly that service. */
  method DeleteService(db: Store, slug: string, serviceId: nat) returns (r: Result<()>)
    requires db.Valid()
    modifies db
    ensures db.Valid()
    ensures r.Err? <==> Addressed(old(db.State()), slug, serviceId).Err?
    ensures r.Err? ==> r.error == ResourceNotFound && db.State() == old(db.State())
    ensures r.Ok? ==> db.State() == old(db.State()).(services := old(db.services) - {serviceId})
  {
    var found := FindAddressed(db, slug, serviceId);
    if found.Err? {
      return Err(ResourceNotFound);
    }
    ValidWithoutService(db.State(), serviceId);
    db.services := db.services - {serviceId};
    r := Ok(());
  }
}
