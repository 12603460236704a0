/** `src/app/api/bookings/route.js`: creating a booking (POST) and listing bookings (GET).
    POST runs its guards in a fixed order, asks the overlap check of `Schedule` about the
    provider's non-cancelled bookings, and on success appends exactly one row. */
module Bookings {
  import opened Common
  import opened Rows
  import opened Schedule
  import opened Tables

  /** The inputs of POST: the identity headers set by the access gate and the JSON body.
      Identifiers and the date are taken already parsed; `None` stands for a field that is
      absent or falsy. `status` is `None` only when the body leaves it out. */
  datatype BookingRequest = BookingRequest(
    userId: Option<int>,       // header x-user-id
    role: Option<string>,      // header x-user-role
    serviceId: Option<int>,
    providerId: Option<int>,
    date: Option<int>,         // start, in milliseconds
    status: Option<string>)

  const DefaultStatus: string := "pending"
  const ClientRole: string := "CLIENT"

  const AuthRequired: string := "Authentication required."
  const ClientsOnly: string := "Only clients can create bookings."
  const FieldsRequired: string := "Service ID, service provider ID, and date are required."
  const ServiceNotFound: string := "Service not found."
  const SlotTaken: string := "Time slot is not available. Please choose a different time."
  const InternalError: string := "Internal server error."

  predicate Authenticated(req: BookingRequest)
  {
    req.userId.Some? && Truthy(req.role)
  }

  predicate HasBookingFields(req: BookingRequest)
  {
    req.serviceId.Some? && req.providerId.Some? && req.date.Some?
  }

  /** The request gets past every guard before the conflict check. */
  predicate ReachesCheck(services: seq<Service>, req: BookingRequest)
  {
    && Authenticated(req) && req.role.value == ClientRole && HasBookingFields(req)
    && Find(services, ServiceId, req.serviceId.value).Some?
  }

  /** `[date, date + service.duration * 60000)` collides with one of the provider's
      non-cancelled bookings. */
  predicate RequestConflicts(bookings: seq<Booking>, services: seq<Service>, req: BookingRequest)
    requires HasBookingFields(req)
  {
    HasConflict(Candidates(bookings, req.providerId.value), services,
                req.date.value, req.date.value + DurationOf(services, req.serviceId.value) * MsPerMinute)
  }

  /** POST /api/bookings. */
  method PostBooking(db: Store, req: BookingRequest) returns (resp: Reply<Booking>)
    requires db.Valid()
    modifies db`bookings, db`nextBookingId
    ensures db.Valid()
    ensures !Authenticated(req) ==> resp == Failure(401, AuthRequired)
    ensures Authenticated(req) && req.role.value != ClientRole ==> resp == Failure(403, ClientsOnly)
    ensures Authenticated(req) && req.role.value == ClientRole && !HasBookingFields(req) ==>
      resp == Failure(400, FieldsRequired)
    ensures (Authenticated(req) && req.role.value == ClientRole && HasBookingFields(req)
             && Find(db.services, ServiceId, req.serviceId.value).None?) ==>
      resp == Failure(404, ServiceNotFound)
    ensures ReachesCheck(db.services, req) ==>
      (resp == Failure(409, SlotTaken) <==> RequestConflicts(old(db.bookings), db.services, req))
    ensures (ReachesCheck(db.services, req) && !RequestConflicts(old(db.bookings), db.services, req)
             && !(IsUser(db.users, req.userId.value) && IsProvider(db.providers, req.providerId.value))) ==>
      resp == Failure(500, InternalError)
    ensures resp.Success? <==>
      ReachesCheck(db.services, req) && !RequestConflicts(old(db.bookings), db.services, req)
      && IsUser(db.users, req.userId.value) && IsProvider(db.providers, req.providerId.value)
    ensures resp.Success? ==>
      && resp.status == 201
      && resp.value == Booking(old(db.nextBookingId), req.userId.value, req.serviceId.value,
                               req.providerId.value, req.date.value, GetOr(req.status, DefaultStatus))
      && db.bookings == old(db.bookings) + [resp.value] && db.nextBookingId == old(db.nextBookingId) + 1
    ensures resp.Failure? ==> db.bookings == old(db.bookings) && db.nextBookingId == old(db.nextBookingId)
    ensures ScheduleDisjoint(old(db.bookings), db.services) ==> ScheduleDisjoint(db.bookings, db.services)
  {
    if req.userId.None? || !Truthy(req.role) {
      return Failure(401, AuthRequired);
    }
    if req.role.value != ClientRole {
      return Failure(403, ClientsOnly);
    }
    if req.serviceId.None? || req.providerId.None? || req.date.None? {
      return Failure(400, FieldsRequired);
    }
    var service := Find(db.services, ServiceId, req.serviceId.value);
    if service.None? {
      return Failure(404, ServiceNotFound);
    }
    var start := req.date.value;
    var end := start + service.value.duration * MsPerMinute;
    var existing := Candidates(db.bookings, req.providerId.value);
    if HasConflict(existing, db.services, start, end) {
      return Failure(409, SlotTaken);
    }
    var status := GetOr(req.status, DefaultStatus);
    var created := db.CreateBooking(req.userId.value, req.serviceId.value, req.providerId.value, start, status);
    if created.None? {
      return Failure(500, InternalError);
    }
    AdmitOutcomeKeepsDisjoint(old(db.bookings), db.services, created.value);
    return Success(201, created.value);
  }

  /** The appended row is the one the check admitted, so the schedule stays disjoint. */
  lemma AdmitOutcomeKeepsDisjoint(bookings: seq<Booking>, services: seq<Service>, nb: Booking)
    requires !HasConflict(Candidates(bookings, nb.providerId), services, nb.date,
                          nb.date + DurationOf(services, nb.serviceId) * MsPerMinute)
    ensures ScheduleDisjoint(bookings, services) ==> ScheduleDisjoint(bookings + [nb], services)
  {
    if ScheduleDisjoint(bookings, services) {
      AdmitKeepsDisjoint(bookings, services, nb);
    }
  }

  /** The `whereClause` of GET: each filter is applied only when its parameter is given. */
  function MatchesWhere(userFilter: Option<int>, providerFilter: Option<int>): Booking -> bool
  {
    (b: Booking) =>
      (userFilter.None? || b.userId == userFilter.value)
      && (providerFilter.None? || b.providerId == providerFilter.value)
  }

  function ByDate(b: Booking): int { b.date }

  /** GET /api/bookings?user_id=&service_provider_id=: exactly the matching bookings, each as
      often as stored, in ascending date order. `None` is a parameter absent or empty. */
  function ListBookings(bookings: seq<Booking>, userFilter: Option<int>, providerFilter: Option<int>): (r: seq<Booking>)
    ensures SortedBy(r, ByDate)
    ensures forall b :: multiset(r)[b] ==
                        (if (userFilter.None? || b.userId == userFilter.value)
                            && (providerFilter.None? || b.providerId == providerFilter.value)
                         then multiset(bookings)[b] else 0)
  {
    var matching := Filter(bookings, MatchesWhere(userFilter, providerFilter));
    FilterCount(bookings, MatchesWhere(userFilter, providerFilter));
    SortByCorrect(matching, ByDate);
    SortBy(matching, ByDate)
  }

  /** Without parameters, GET returns every booking. */
  lemma ListAllIsPermutation(bookings: seq<Booking>)
    ensures multiset(ListBookings(bookings, None, None)) == multiset(bookings)
  {
    var r := ListBookings(bookings, None, None);
    assert forall b :: multiset(r)[b] == multiset(bookings)[b];
  }
}
