/** The database behind the routes (the Prisma client): one table per model, each a sequence
    in insertion order, with the autoincrement counter of its id. `Valid()` holds what the
    schema guarantees: ids below their counter, foreign keys that resolve, unique e-mail
    addresses and at most one provider profile per user. A create that would break a foreign
    key or the unique e-mail constraint is refused by the database, which the model returns as
    `None` (the route then answers with its catch-all 500). */
module Tables {
  import opened Common
  import opened Rows

  ghost predicate IsUser(users: seq<User>, id: int) { exists u | u in users :: u.id == id }
  ghost predicate IsProvider(providers: seq<Provider>, id: int) { exists p | p in providers :: p.id == id }
  ghost predicate IsService(services: seq<Service>, id: int) { exists s | s in services :: s.id == id }

  predicate EmailTaken(users: seq<User>, email: string)
  {
    exists u | u in users :: u.email == email
  }

  ghost predicate UniqueEmails(users: seq<User>)
  {
    forall i, j | 0 <= i < j < |users| :: users[i].email != users[j].email
  }

  ghost predicate UniqueUserIds(users: seq<User>)
  {
    forall i, j | 0 <= i < j < |users| :: users[i].id != users[j].id
  }

  ghost predicate UsersValid(users: seq<User>, next: int)
  {
    next >= 1 && (forall u | u in users :: 1 <= u.id < next) && UniqueEmails(users) && UniqueUserIds(users)
  }

  ghost predicate ProvidersValid(providers: seq<Provider>, next: int, users: seq<User>)
  {
    && next >= 1
    && (forall p | p in providers :: 1 <= p.id < next && IsUser(users, p.userId))
    && (forall i, j | 0 <= i < j < |providers| :: providers[i].userId != providers[j].userId)
  }

  ghost predicate ServicesValid(services: seq<Service>, next: int, providers: seq<Provider>)
  {
    next >= 1 && forall s | s in services :: 1 <= s.id < next && IsProvider(providers, s.providerId)
  }

  ghost predicate BookingsValid(bookings: seq<Booking>, next: int, users: seq<User>, services: seq<Service>, providers: seq<Provider>)
  {
    next >= 1 && forall b | b in bookings ::
      1 <= b.id < next && IsUser(users, b.userId) && IsService(services, b.serviceId) && IsProvider(providers, b.providerId)
  }

  ghost predicate ImagesValid(images: seq<GalleryImage>, next: int, providers: seq<Provider>)
  {
    next >= 1 && forall g | g in images :: 1 <= g.id < next && IsProvider(providers, g.providerId)
  }

  class Store {
    var users: seq<User>
    var providers: seq<Provider>
    var services: seq<Service>
    var bookings: seq<Booking>
    var images: seq<GalleryImage>
    var nextUserId: int
    var nextProviderId: int
    var nextServiceId: int
    var nextBookingId: int
    var nextImageId: int

    ghost predicate Valid()
      reads this
    {
      && UsersValid(users, nextUserId)
      && ProvidersValid(providers, nextProviderId, users)
      && ServicesValid(services, nextServiceId, providers)
      && BookingsValid(bookings, nextBookingId, users, services, providers)
      && ImagesValid(images, nextImageId, providers)
    }

    /** An empty database; every autoincrement starts at 1. */
    constructor ()
      ensures Valid()
      ensures users == [] && providers == [] && services == [] && bookings == [] && images == []
      ensures nextUserId == 1 && nextProviderId == 1 && nextServiceId == 1 && nextBookingId == 1 && nextImageId == 1
    {
      users, providers, services, bookings, images := [], [], [], [], [];
      nextUserId, nextProviderId, nextServiceId, nextBookingId, nextImageId := 1, 1, 1, 1, 1;
    }

    /** `prisma.user.create`: refused when the e-mail address is taken. */
    method CreateUser(email: string, password: string, name: string, role: Role, dateOfBirth: Option<int>,
                      phone: Option<string>, profileColor: string, profileImage: Option<string>, status: string)
      returns (r: Option<User>)
      requires Valid()
      modifies this`users, this`nextUserId
      ensures Valid()
      ensures r.None? <==> EmailTaken(old(users), email)
      ensures r.Some? ==> r.value == User(old(nextUserId), email, password, name, role, dateOfBirth, phone, profileColor, profileImage, status)
      ensures r.Some? ==> users == old(users) + [r.value] && nextUserId == old(nextUserId) + 1
      ensures r.None? ==> users == old(users) && nextUserId == old(nextUserId)
    {
      if EmailTaken(users, email) {
        return None;
      }
      var u := User(nextUserId, email, password, name, role, dateOfBirth, phone, profileColor, profileImage, status);
      AppendUserKeepsLinks(users, u);
      users := users + [u];
      nextUserId := nextUserId + 1;
      r := Some(u);
    }

    /** `prisma.$transaction`: a user row and the provider row that points at it, both or neither. */
    method CreateUserWithProvider(email: string, password: string, name: string, role: Role, dateOfBirth: Option<int>,
                                  phone: Option<string>, profileColor: string, profileImage: Option<string>, status: string,
                                  ethnicity: Option<string>, hairColor: Option<string>, experienceYears: Option<int>,
                                  certifications: Option<string>, specialties: Option<string>, address: Option<string>)
      returns (r: Option<(User, Provider)>)
      requires Valid()
      modifies this`users, this`nextUserId, this`providers, this`nextProviderId
      ensures Valid()
      ensures r.None? <==> EmailTaken(old(users), email)
      ensures r.Some? ==>
        && r.value.0 == User(old(nextUserId), email, password, name, role, dateOfBirth, phone, profileColor, profileImage, status)
        && r.value.1 == Provider(old(nextProviderId), r.value.0.id, ethnicity, hairColor, experienceYears, certifications, specialties, address)
        && users == old(users) + [r.value.0] && nextUserId == old(nextUserId) + 1
        && providers == old(providers) + [r.value.1] && nextProviderId == old(nextProviderId) + 1
      ensures r.None? ==>
        users == old(users) && nextUserId == old(nextUserId) && providers == old(providers) && nextProviderId == old(nextProviderId)
    {
      if EmailTaken(users, email) {
        return None;
      }
      var u := User(nextUserId, email, password, name, role, dateOfBirth, phone, profileColor, profileImage, status);
      var p := Provider(nextProviderId, u.id, ethnicity, hairColor, experienceYears, certifications, specialties, address);
      AppendUserKeepsLinks(users, u);
      AppendProviderKeepsLinks(providers, p);
      forall i | 0 <= i < |providers| ensures providers[i].userId != u.id {
        assert providers[i] in providers;
      }
      users := users + [u];
      nextUserId := nextUserId + 1;
      providers := providers + [p];
      nextProviderId := nextProviderId + 1;
      r := Some((u, p));
    }

    /** `prisma.service.create`: refused when the provider does not exist. */
    method CreateService(providerId: int, name: string, description: string, price: string, duration: int,
                         calendarColor: Option<string>, status: string)
      returns (r: Option<Service>)
      requires Valid()
      modifies this`services, this`nextServiceId
      ensures Valid()
      ensures r.None? <==> !IsProvider(providers, providerId)
      ensures r.Some? ==> r.value == Service(old(nextServiceId), providerId, name, description, price, duration, calendarColor, status)
      ensures r.Some? ==> services == old(services) + [r.value] && nextServiceId == old(nextServiceId) + 1
      ensures r.None? ==> services == old(services) && nextServiceId == old(nextServiceId)
    {
      if !exists p | p in providers :: p.id == providerId {
        return None;
      }
      var s := Service(nextServiceId, providerId, name, description, price, duration, calendarColor, status);
      forall b | b in bookings ensures IsService(services + [s], b.serviceId) {
        var t :| t in services && t.id == b.serviceId;
        assert t in services + [s];
      }
      services := services + [s];
      nextServiceId := nextServiceId + 1;
      r := Some(s);
    }

    /** `prisma.booking.create`: refused when the user, the service or the provider does not exist.
        The database does not look at other bookings: the conflict check is the route's. */
    method CreateBooking(userId: int, serviceId: int, providerId: int, date: int, status: string)
      returns (r: Option<Booking>)
      requires Valid()
      modifies this`bookings, this`nextBookingId
      ensures Valid()
      ensures r.None? <==> !(IsUser(users, userId) && IsService(services, serviceId) && IsProvider(providers, providerId))
      ensures r.Some? ==> r.value == Booking(old(nextBookingId), userId, serviceId, providerId, date, status)
      ensures r.Some? ==> bookings == old(bookings) + [r.value] && nextBookingId == old(nextBookingId) + 1
      ensures r.None? ==> bookings == old(bookings) && nextBookingId == old(nextBookingId)
    {
      if !((exists u | u in users :: u.id == userId) && (exists s | s in services :: s.id == serviceId)
           && (exists p | p in providers :: p.id == providerId)) {
        return None;
      }
      var b := Booking(nextBookingId, userId, serviceId, providerId, date, status);
      bookings := bookings + [b];
      nextBookingId := nextBookingId + 1;
      r := Some(b);
    }

    /** `prisma.galleryImage.create`: refused when the provider does not exist. */
    method CreateImage(providerId: int, filename: Option<string>, createdAt: int)
      returns (r: Option<GalleryImage>)
      requires Valid()
      modifies this`images, this`nextImageId
      ensures Valid()
      ensures r.None? <==> !IsProvider(providers, providerId)
      ensures r.Some? ==> r.value == GalleryImage(old(nextImageId), providerId, filename, createdAt)
      ensures r.Some? ==> images == old(images) + [r.value] && nextImageId == old(nextImageId) + 1
      ensures r.None? ==> images == old(images) && nextImageId == old(nextImageId)
    {
      if !exists p | p in providers :: p.id == providerId {
        return None;
      }
      var g := GalleryImage(nextImageId, providerId, filename, createdAt);
      images := images + [g];
      nextImageId := nextImageId + 1;
      r := Some(g);
    }
  }

  /** Appending a user keeps every reference to users resolving. */
  lemma AppendUserKeepsLinks(users: seq<User>, u: User)
    ensures forall id | IsUser(users, id) :: IsUser(users + [u], id)
  {
    forall id | IsUser(users, id) ensures IsUser(users + [u], id) {
      var w :| w in users && w.id == id;
      assert w in users + [u];
    }
  }

  /** Appending a provider keeps every reference to providers resolving. */
  lemma AppendProviderKeepsLinks(providers: seq<Provider>, p: Provider)
    ensures forall id | IsProvider(providers, id) :: IsProvider(providers + [p], id)
  {
    forall id | IsProvider(providers, id) ensures IsProvider(providers + [p], id) {
      var w :| w in providers && w.id == id;
      assert w in providers + [p];
    }
  }
}
