/** The system administrator's operations on businesses: registering a business
    together with its owner account and default opening hours, switching a
    business on or off, and removing it. */
module BusinessService {
  import opened Common
  import opened Entities
  import opened Requests
  import opened BusinessHoursModel
  import opened Store
  import opened BusinessHoursService

  /** What the business endpoints return; `createdAt` is not modelled. */
  datatype BusinessResponse = BusinessResponse(id: nat, name: string, slug: string, active: bool, bookingUrl: string)

  /** The public booking page of a business. */
  function BookingUrl(publicUrl: string, slug: string): string
  {
    publicUrl + "/book/" + slug
  }

  /** The booking URL starts with the public URL and ends with the slug, so one
      public URL never gives two businesses with different slugs the same link. */
  lemma BookingUrlDeterminesSlug(publicUrl: string, slug1: string, slug2: string)
    requires BookingUrl(publicUrl, slug1) == BookingUrl(publicUrl, slug2)
    ensures slug1 == slug2
  {
    var n := |publicUrl| + |"/book/"|;
    assert BookingUrl(publicUrl, slug1)[n..] == slug1;
    assert BookingUrl(publicUrl, slug2)[n..] == slug2;
  }

  function ToResponse(b: Business, publicUrl: string): BusinessResponse
  {
    BusinessResponse(b.id, b.name, b.slug, b.active, BookingUrl(publicUrl, b.slug))
  }

  /** Whether the `users` table takes the owner row: the username column holds
      at most 50 characters and the e-mail column at most 100. */
  predicate OwnerInsertable(slug: string, email: string)
  {
    |OwnerUsername(slug)| <= 50 && |email| <= 100
  }

  /** The owner username outgrows its column exactly for slugs of more than 44
      characters, which the request's @Size(max = 50) lets through. */
  lemma OwnerUsernameFitsUpTo44(slug: string)
    ensures |OwnerUsername(slug)| <= 50 <==> |slug| <= 44
  {
  }

  /** What `createBusiness` hands back to the administrator; the fixed message
      is not modelled. */
  datatype BusinessWithOwner = BusinessWithOwner(
    businessId: nat,
    businessName: string,
    businessSlug: string,
    bookingUrl: string,
    ownerUsername: string,
    ownerEmail: string,
    temporaryPassword: string)

  /** The username of a business's owner account is derived from the slug. */
  function OwnerUsername(slug: string): string
  {
    slug + "-owner"
  }

  /** A valid slug (3 to 50 characters of `[a-z0-9-]`) gives an owner username of
      9 to 56 characters of the same alphabet that starts with the slug. */
  lemma OwnerUsernameShape(slug: string)
    requires SlugValid(Some(slug))
    ensures 9 <= |OwnerUsername(slug)| <= 56
    ensures MatchesSlugPattern(OwnerUsername(slug))
    ensures OwnerUsername(slug)[..|slug|] == slug
  {
    var u := OwnerUsername(slug);
    forall i | 0 <= i < |u| ensures IsSlugChar(u[i]) {
      if i < |slug| {
        assert u[i] == slug[i];
      } else {
        assert u[i] == "-owner"[i - |slug|];
      }
    }
  }

  /** Different slugs give different owner usernames. */
  lemma OwnerUsernameInjective(slug1: string, slug2: string)
    requires OwnerUsername(slug1) == OwnerUsername(slug2)
    ensures slug1 == slug2
  {
    assert |slug1| == |slug2|;
    assert OwnerUsername(slug1)[..|slug1|] == slug1;
    assert OwnerUsername(slug2)[..|slug2|] == slug2;
  }

  predicate IsPasswordChar(c: char)
  {
    '1' <= c <= '9'
  }

  /** Eight characters drawn from "123456789"; which character each draw picks
      is left open, standing for the secure random generator. */
  method GenerateTemporaryPassword() returns (password: string)
    ensures |password| == 8
    ensures forall i :: 0 <= i < |password| ==> IsPasswordChar(password[i])
  {
    var chars := "123456789";
    password := "";
    for i := 0 to 8
      invariant |password| == i
      invariant forall j :: 0 <= j < i ==> IsPasswordChar(password[j])
    {
      var index :| 0 <= index < |chars|;
      password := password + [chars[index]];
    }
  }

  /** The three duplicate checks of `createBusiness`, in the order they run; each
      rejects with DuplicateResource. */
  predicate CreateRejected(s: StoreState, slug: string, email: string)
  {
    SlugExists(s.businesses, slug)
    || EmailExists(s.users, email)
    || UsernameExists(s.users, OwnerUsername(slug))
  }

  /** The store after a successful `createBusiness`: a new active business linked
      to a new active owner account and back, and the default week. */
  function Created(s: StoreState, name: string, slug: string, email: string): StoreState
  {
    var bid := s.nextBusinessId;
    var uid := s.nextUserId;
    s.(businesses := s.businesses[bid := Business(bid, name, slug, true, Some(uid))],
       users := s.users[uid := User(uid, OwnerUsername(slug), email, BusinessOwner, Some(bid), true)],
       hours := AddDefaultDays(s.hours, bid, 7),
       nextBusinessId := bid + 1,
       nextUserId := uid + 1)
  }

  /** A newly numbered business has no hours yet, so the default week is added in
      full rather than skipped. */
  lemma FreshBusinessHasNoHours(s: StoreState)
    requires ValidState(s)
    ensures !HasHours(s.hours, s.nextBusinessId)
    ensures WithDefaultHours(s.hours, s.nextBusinessId) == AddDefaultDays(s.hours, s.nextBusinessId, 7)
  {
  }

  /** After a registration the business and its owner point at each other, the
      owner is an active BUSINESS_OWNER, and every weekday has its default record. */
  lemma {:induction false} CreatedBusinessShape(s: StoreState, name: string, slug: string, email: string, day: Weekday)
    requires ValidState(s)
    ensures var t := Created(s, name, slug, email);
            var bid := s.nextBusinessId;
            var uid := s.nextUserId;
            && bid in t.businesses && t.businesses[bid].active && t.businesses[bid].owner == Some(uid)
            && uid in t.users && t.users[uid].business == Some(bid)
            && t.users[uid].role == BusinessOwner && t.users[uid].active
            && (bid, day) in t.hours && t.hours[(bid, day)] == DefaultHoursFor(day)
  {
    FreshBusinessHasNoHours(s);
    DefaultWeekShape(s.hours, s.nextBusinessId, day);
  }

  method CreateBusiness(db: Store, request: BusinessRequest, publicUrl: string) returns (r: Result<BusinessWithOwner>)
    requires db.Valid() && BusinessRequestValid(request)
    modifies db
    ensures db.Valid()
    ensures var name, slug, email := request.name.value, request.slug.value, request.ownerEmail.value;
            r.Err? <==> CreateRejected(old(db.State()), slug, email) || !OwnerInsertable(slug, email)
    ensures var name, slug, email := request.name.value, request.slug.value, request.ownerEmail.value;
            r.Err? ==> r.error == (if CreateRejected(old(db.State()), slug, email) then DuplicateResource else DataIntegrity)
    ensures r.Err? ==> db.State() == old(db.State())
    ensures var name, slug, email := request.name.value, request.slug.value, request.ownerEmail.value;
            r.Ok? ==> db.State() == Created(old(db.State()), name, slug, email)
    ensures var name, slug, email := request.name.value, request.slug.value, request.ownerEmail.value;
            r.Ok? ==> r.value == BusinessWithOwner(old(db.nextBusinessId), name, slug, BookingUrl(publicUrl, slug),
                                                   OwnerUsername(slug), email, r.value.temporaryPassword)
    ensures r.Ok? ==> |r.value.temporaryPassword| == 8
    ensures r.Ok? ==> forall i :: 0 <= i < 8 ==> IsPasswordChar(r.value.temporaryPassword[i])
  {
    var name, slug, email := request.name.value, request.slug.value, request.ownerEmail.value;
    if k :| k in db.businesses && db.businesses[k].slug == slug {
      return Err(DuplicateResource);
    }
    if k :| k in db.users && db.users[k].email == email {
      return Err(DuplicateResource);
    }
    var ownerUsername := OwnerUsername(slug);
    if k :| k in db.users && db.users[k].username == ownerUsername {
      return Err(DuplicateResource);
    }
    var password := GenerateTemporaryPassword();
    if !(|ownerUsername| <= 50 && |email| <= 100) {
      // the owner insert of step 2 is refused and the transaction rolls back
      // the business inserted in step 1
      return Err(DataIntegrity);
    }
    var bid := Register(db, name, slug, email);
    r := Ok(BusinessWithOwner(bid, name, slug, BookingUrl(publicUrl, slug), ownerUsername, email, password));
  }

  /** Steps 1 to 4 of a registration that passed the duplicate checks and whose
      owner row fits its columns. */
  method Register(db: Store, name: string, slug: string, email: string) returns (bid: nat)
    requires db.Valid() && !CreateRejected(db.State(), slug, email) && OwnerInsertable(slug, email)
    modifies db
    ensures db.Valid()
    ensures bid == old(db.nextBusinessId)
    ensures db.State() == Created(old(db.State()), name, slug, email)
  {
    ghost var s0 := db.State();
    FreshBusinessHasNoHours(s0);
    bid := LinkOwner(db, name, slug, email);
    assert db.hours == s0.hours;
    var init := InitializeDefaultHours(db, bid);
    assert init.Ok?;
    assert db.hours == AddDefaultDays(s0.hours, bid, 7);
  }

  /** Steps 1 to 3: the business, its owner account, and the owner link. */
  method LinkOwner(db: Store, name: string, slug: string, email: string) returns (bid: nat)
    requires db.Valid() && !CreateRejected(db.State(), slug, email) && OwnerInsertable(slug, email)
    modifies db
    ensures db.Valid()
    ensures bid == old(db.nextBusinessId) && bid in db.businesses
    ensures var uid := old(db.nextUserId);
            db.State() == old(db.State()).(
              businesses := old(db.businesses)[bid := Business(bid, name, slug, true, Some(uid))],
              users := old(db.users)[uid := User(uid, OwnerUsername(slug), email, BusinessOwner, Some(bid), true)],
              nextBusinessId := bid + 1,
              nextUserId := uid + 1)
  {
    ghost var s0 := db.State();
    bid := db.nextBusinessId;
    var uid := db.nextUserId;

    var business := Business(bid, name, slug, true, None);
    db.businesses, db.nextBusinessId := db.businesses[bid := business], bid + 1;

    var owner := User(uid, OwnerUsername(slug), email, BusinessOwner, Some(bid), true);
    db.users, db.nextUserId := db.users[uid := owner], uid + 1;

    business := business.(owner := Some(uid));
    db.businesses := db.businesses[bid := business];
    assert db.businesses == s0.businesses[bid := business];
    ValidLinked(s0, name, slug, email);
  }

  /** The business and owner rows that steps 1 to 3 leave behind keep the store
      valid. */
  lemma ValidLinked(s: StoreState, name: string, slug: string, email: string)
    requires ValidState(s) && !CreateRejected(s, slug, email)
    ensures var bid, uid := s.nextBusinessId, s.nextUserId;
            ValidState(s.(
              businesses := s.businesses[bid := Business(bid, name, slug, true, Some(uid))],
              users := s.users[uid := User(uid, OwnerUsername(slug), email, BusinessOwner, Some(bid), true)],
              nextBusinessId := bid + 1,
              nextUserId := uid + 1))
  {
    var bid, uid := s.nextBusinessId, s.nextUserId;
    var b := Business(bid, name, slug, true, Some(uid));
    ValidWithBusiness(s, b, bid + 1);
    var s1 := s.(businesses := s.businesses[bid := b], nextBusinessId := bid + 1);
    ValidWithUser(s1, User(uid, OwnerUsername(slug), email, BusinessOwner, Some(bid), true));
  }

  /** `updateBusinessStatus`: only the business's `active` flag changes. */
  method UpdateBusinessStatus(db: Store, id: nat, active: bool, publicUrl: string) returns (r: Result<BusinessResponse>)
    requires db.Valid()
    modifies db
    ensures db.Valid()
    ensures id !in old(db.businesses) <==> r.Err?
    ensures r.Err? ==> r.error == ResourceNotFound && db.State() == old(db.State())
    ensures r.Ok? ==> var b := old(db.businesses)[id].(active := active);
            db.State() == old(db.State()).(businesses := old(db.businesses)[id := b])
            && r.value == ToResponse(b, publicUrl)
  {
    if id !in db.businesses {
      return Err(ResourceNotFound);
    }
    var b := db.businesses[id].(active := active);
    ValidWithBusiness(db.State(), b, db.nextBusinessId);
    db.businesses := db.businesses[id := b];
    r := Ok(ToResponse(b, publicUrl));
  }

  /** `deleteBusiness`: removes exactly that business. */
  method DeleteBusiness(db: Store, id: nat) returns (r: Result<()>)
    requires db.Valid()
    modifies db
    ensures db.Valid()
    ensures id !in old(db.businesses) <==> r.Err?
    ensures r.Err? ==> r.error == ResourceNotFound && db.State() == old(db.State())
    ensures r.Ok? ==> db.State() == old(db.State()).(businesses := old(db.businesses) - {id})
  {
    if id !in db.businesses {
      return Err(ResourceNotFound);
    }
    ValidWithoutBusiness(db.State(), id);
    db.businesses := db.businesses - {id};
    r := Ok(());
  }

  /** `getBusinessBySlug`, as the owner and public pages see a business. */
  method GetBusinessBySlug(db: Store, slug: string, publicUrl: string) returns (r: Result<BusinessResponse>)
    requires db.Valid()
    ensures r.Err? <==> !SlugExists(db.businesses, slug)
    ensures r.Err? ==> r.error == ResourceNotFound
    ensures r.Ok? ==> r.value == ToResponse(LookupSlug(db.businesses, slug).value, publicUrl)
    ensures r.Ok? ==> r.value.slug == slug && r.value.bookingUrl == BookingUrl(publicUrl, slug)
  {
    var found := FindBySlug(db, slug);
    if found.None? {
      return Err(ResourceNotFound);
    }
    r := Ok(ToResponse(found.value, publicUrl));
  }
}
