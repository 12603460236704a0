/** `src/app/api/services/route.js`, POST: a service provider creates a service. The service is
    bound to the provider id of the `x-service-provider-id` header, never to anything in the
    body. */
module Services {
  import opened Common
  import opened Rows
  import opened Schedule
  import opened Tables

  /** Headers set by the access gate, then the JSON body. `None` for a header is one that is
      absent or empty; `None` for `duration` or `status` is a field the body leaves out. */
  datatype ServiceRequest = ServiceRequest(
    userId: Option<int>,            // header x-user-id
    role: Option<string>,           // header x-user-role
    providerId: Option<int>,        // header x-service-provider-id
    name: Option<string>,
    description: Option<string>,
    price: Option<string>,
    duration: Option<int>,
    calendarColor: Option<string>,
    status: Option<string>)

  const DefaultDuration: int := 60
  const DefaultServiceStatus: string := "active"
  const ProviderRole: string := "SERVICE_PROVIDER"

  const AuthRequired: string := "Authentication required."
  const ProvidersOnly: string := "Only service providers can create services."
  const NoProfile: string := "Service provider profile not found."
  const FieldsRequired: string := "Name, description, and price are required."

  predicate Authenticated(req: ServiceRequest)
  {
    req.userId.Some? && Truthy(req.role)
  }

  predicate HasServiceFields(req: ServiceRequest)
  {
    Truthy(req.name) && Truthy(req.description) && Truthy(req.price)
  }

  /** The row POST writes once every guard has passed. */
  function NewService(id: int, req: ServiceRequest): Service
    requires req.providerId.Some? && HasServiceFields(req)
  {
    Service(id, req.providerId.value, req.name.value, req.description.value, req.price.value,
            GetOr(req.duration, DefaultDuration), req.calendarColor, GetOr(req.status, DefaultServiceStatus))
  }

  /** POST /api/services. `dbError` is the text of the error the database raises when it refuses
      the insert; the catch-all reply forwards it. */
  method PostService(db: Store, req: ServiceRequest, dbError: string) returns (resp: Reply<Service>)
    requires db.Valid()
    modifies db`services, db`nextServiceId
    ensures db.Valid()
    ensures !Authenticated(req) ==> resp == Failure(401, AuthRequired)
    ensures Authenticated(req) && req.role.value != ProviderRole ==> resp == Failure(403, ProvidersOnly)
    ensures Authenticated(req) && req.role.value == ProviderRole && req.providerId.None? ==>
      resp == Failure(400, NoProfile)
    ensures (Authenticated(req) && req.role.value == ProviderRole && req.providerId.Some?
             && !HasServiceFields(req)) ==>
      resp == Failure(400, FieldsRequired)
    ensures (Authenticated(req) && req.role.value == ProviderRole && req.providerId.Some? && HasServiceFields(req)
             && !IsProvider(db.providers, req.providerId.value)) ==>
      resp == Failure(500, dbError)
    ensures resp.Success? <==>
      Authenticated(req) && req.role.value == ProviderRole && req.providerId.Some? && HasServiceFields(req)
      && IsProvider(db.providers, req.providerId.value)
    ensures resp.Success? ==>
      && resp.status == 201
      && resp.value == NewService(old(db.nextServiceId), req)
      && resp.value.providerId == req.providerId.value
      && resp.value.duration == (if req.duration.None? then 60 else req.duration.value)
      && resp.value.status == (if req.status.None? then "active" else req.status.value)
      && db.services == old(db.services) + [resp.value] && db.nextServiceId == old(db.nextServiceId) + 1
    ensures resp.Failure? ==> db.services == old(db.services) && db.nextServiceId == old(db.nextServiceId)
    ensures ScheduleDisjoint(db.bookings, old(db.services)) ==> ScheduleDisjoint(db.bookings, db.services)
  {
    if req.userId.None? || !Truthy(req.role) {
      return Failure(401, AuthRequired);
    }
    if req.role.value != ProviderRole {
      return Failure(403, ProvidersOnly);
    }
    if req.providerId.None? {
      return Failure(400, NoProfile);
    }
    if !Truthy(req.name) || !Truthy(req.description) || !Truthy(req.price) {
      return Failure(400, FieldsRequired);
    }
    var duration := GetOr(req.duration, DefaultDuration);
    var status := GetOr(req.status, DefaultServiceStatus);
    var created := db.CreateService(req.providerId.value, req.name.value, req.description.value, req.price.value,
                                    duration, req.calendarColor, status);
    if created.None? {
      return Failure(500, dbError);
    }
    ServiceInsertOutcome(db.bookings, old(db.services), created.value);
    return Success(201, created.value);
  }

  /** Every booking's service exists, so the new service leaves the booking schedule as it was. */
  lemma ServiceInsertOutcome(bookings: seq<Booking>, services: seq<Service>, s: Service)
    requires forall b | b in bookings :: IsService(services, b.serviceId)
    ensures ScheduleDisjoint(bookings, services) ==> ScheduleDisjoint(bookings, services + [s])
  {
    if ScheduleDisjoint(bookings, services) {
      InsertServiceKeepsDisjoint(bookings, services, s);
    }
  }
}
