/** The interval overlap check of the booking route (`src/app/api/bookings/route.js`): which
    existing bookings can block a request, where an existing booking ends, and what "overlap"
    means there. The end of an existing booking is read through the CURRENT duration of its
    service (a live join), not from anything stored on the booking. */
module Schedule {
  import opened Common
  import opened Rows

  const MsPerMinute: int := 60000
  const Cancelled: string := "cancelled"

  /** The duration, in minutes, of the service with this id in the current services table.
      Every booking refers to an existing service (a foreign key of the database), so the
      fallback 0 is never used for a booking of a well-formed store. */
  function DurationOf(services: seq<Service>, serviceId: int): int
  {
    match Find(services, ServiceId, serviceId)
    case Some(s) => s.duration
    case None => 0
  }

  /** `existingStart.getTime() + existingBooking.service.duration * 60000`. */
  function EndOf(b: Booking, services: seq<Service>): int
  {
    b.date + DurationOf(services, b.serviceId) * MsPerMinute
  }

  /** The route's own test: `bookingDate < existingEnd && bookingEndTime > existingStart`. */
  predicate Overlaps(start: int, end: int, existingStart: int, existingEnd: int)
  {
    start < existingEnd && end > existingStart
  }

  /** The `where` of the conflict query: same provider, status not `'cancelled'`. */
  function BlocksProvider(providerId: int): Booking -> bool
  {
    (b: Booking) => b.providerId == providerId && b.status != Cancelled
  }

  /** The rows `findMany` returns for the conflict check. */
  function Candidates(bookings: seq<Booking>, providerId: int): seq<Booking>
  {
    Filter(bookings, BlocksProvider(providerId))
  }

  /** `existingBookings.some(...)`. */
  predicate HasConflict(existing: seq<Booking>, services: seq<Service>, start: int, end: int)
  {
    exists b | b in existing :: Overlaps(start, end, b.date, EndOf(b, services))
  }

  /** No two distinct non-cancelled bookings of one provider overlap, under the route's own
      predicate and with the current service durations. */
  ghost predicate ScheduleDisjoint(bookings: seq<Booking>, services: seq<Service>)
  {
    forall i, j | 0 <= i < |bookings| && 0 <= j < |bookings| && i != j
      && bookings[i].providerId == bookings[j].providerId
      && bookings[i].status != Cancelled && bookings[j].status != Cancelled
      :: !Overlaps(bookings[i].date, EndOf(bookings[i], services), bookings[j].date, EndOf(bookings[j], services))
  }

  /** The candidates are exactly the provider's bookings that are not cancelled. */
  lemma CandidatesExact(bookings: seq<Booking>, providerId: int)
    ensures forall b :: b in Candidates(bookings, providerId) <==>
      b in bookings && b.providerId == providerId && b.status != Cancelled
  {
    FilterMembers(bookings, BlocksProvider(providerId));
  }

  /** A conflict is found iff some non-cancelled booking of the same provider overlaps. */
  lemma ConflictIffBlockingOverlap(bookings: seq<Booking>, services: seq<Service>, providerId: int, start: int, end: int)
    ensures HasConflict(Candidates(bookings, providerId), services, start, end) <==>
      exists i :: 0 <= i < |bookings| && bookings[i].providerId == providerId && bookings[i].status != Cancelled
        && Overlaps(start, end, bookings[i].date, EndOf(bookings[i], services))
  {
    CandidatesExact(bookings, providerId);
    if HasConflict(Candidates(bookings, providerId), services, start, end) {
      var b :| b in Candidates(bookings, providerId) && Overlaps(start, end, b.date, EndOf(b, services));
      var i :| 0 <= i < |bookings| && bookings[i] == b;
    }
  }

  /** A cancelled booking, or a booking of another provider, never changes the decision. */
  lemma NonBlockingIgnored(bookings: seq<Booking>, x: Booking, services: seq<Service>, providerId: int, start: int, end: int)
    requires x.providerId != providerId || x.status == Cancelled
    ensures HasConflict(Candidates(bookings + [x], providerId), services, start, end)
      == HasConflict(Candidates(bookings, providerId), services, start, end)
  {
    FilterAppendRejected(bookings, x, BlocksProvider(providerId));
  }

  /** Touching intervals do not overlap: a request starting where a booking ends, or ending
      where it starts, is admitted against it. */
  lemma TouchingNeverOverlaps(start: int, end: int, existingStart: int, existingEnd: int)
    requires start == existingEnd || end == existingStart
    ensures !Overlaps(start, end, existingStart, existingEnd)
  {
  }

  /** A zero-length request strictly inside an existing booking still conflicts; at the
      booking's own start it does not. */
  lemma ZeroLengthRequest(start: int, existingStart: int, existingEnd: int)
    ensures existingStart < start < existingEnd ==> Overlaps(start, start, existingStart, existingEnd)
    ensures start == existingStart ==> !Overlaps(start, start, existingStart, existingEnd)
  {
  }

  /** The overlap predicate is symmetric, which is what lets one check per pair suffice. */
  lemma OverlapsSymmetric(s1: int, e1: int, s2: int, e2: int)
    ensures Overlaps(s1, e1, s2, e2) == Overlaps(s2, e2, s1, e1)
  {
  }

  /** The admission invariant: appending a booking that the check admitted keeps the
      non-cancelled bookings of every provider pairwise non-overlapping. */
  lemma AdmitKeepsDisjoint(bookings: seq<Booking>, services: seq<Service>, nb: Booking)
    requires ScheduleDisjoint(bookings, services)
    requires !HasConflict(Candidates(bookings, nb.providerId), services, nb.date, EndOf(nb, services))
    ensures ScheduleDisjoint(bookings + [nb], services)
  {
    var all := bookings + [nb];
    var n := |bookings|;
    CandidatesExact(bookings, nb.providerId);
    forall i, j | 0 <= i < |all| && 0 <= j < |all| && i != j
      && all[i].providerId == all[j].providerId
      && all[i].status != Cancelled && all[j].status != Cancelled
      ensures !Overlaps(all[i].date, EndOf(all[i], services), all[j].date, EndOf(all[j], services))
    {
      if i == n {
        assert all[j] == bookings[j] && all[j] in Candidates(bookings, nb.providerId);
      } else if j == n {
        assert all[i] == bookings[i] && all[i] in Candidates(bookings, nb.providerId);
        OverlapsSymmetric(all[i].date, EndOf(all[i], services), nb.date, EndOf(nb, services));
      } else {
        assert all[i] == bookings[i] && all[j] == bookings[j];
      }
    }
  }

  /** When every booking's service exists, appending any service leaves the end of every booking
      unchanged: the lookup finds the first service with the id, whatever comes after it. */
  lemma InsertServiceKeepsEnds(bookings: seq<Booking>, services: seq<Service>, s: Service)
    requires forall b | b in bookings :: exists t :: t in services && t.id == b.serviceId
    ensures forall b | b in bookings :: EndOf(b, services + [s]) == EndOf(b, services)
  {
    forall b | b in bookings ensures EndOf(b, services + [s]) == EndOf(b, services) {
      FindAppend(services, s, ServiceId, b.serviceId);
    }
  }

  /** Hence a service insert preserves the schedule invariant. */
  lemma InsertServiceKeepsDisjoint(bookings: seq<Booking>, services: seq<Service>, s: Service)
    requires forall b | b in bookings :: exists t :: t in services && t.id == b.serviceId
    requires ScheduleDisjoint(bookings, services)
    ensures ScheduleDisjoint(bookings, services + [s])
  {
    InsertServiceKeepsEnds(bookings, services, s);
    forall i, j | 0 <= i < |bookings| && 0 <= j < |bookings|
      ensures EndOf(bookings[i], services + [s]) == EndOf(bookings[i], services)
      ensures EndOf(bookings[j], services + [s]) == EndOf(bookings[j], services)
    {
      assert bookings[i] in bookings && bookings[j] in bookings;
    }
  }

  /** The live join at work: a longer duration for the same service, with the same bookings,
      can make an admitted schedule overlap afterwards. */
  lemma LiveJoinDrift()
    ensures var bs := [Booking(1, 1, 1, 1, 0, "pending"), Booking(2, 1, 1, 1, 30 * MsPerMinute, "pending")];
      var short := [Service(1, 1, "massage", "thirty minutes", "50", 30, None, "active")];
      var long := [Service(1, 1, "massage", "thirty minutes", "50", 45, None, "active")];
      ScheduleDisjoint(bs, short) && !ScheduleDisjoint(bs, long)
  {
    var bs := [Booking(1, 1, 1, 1, 0, "pending"), Booking(2, 1, 1, 1, 30 * MsPerMinute, "pending")];
    var long := [Service(1, 1, "massage", "thirty minutes", "50", 45, None, "active")];
    assert Overlaps(bs[0].date, EndOf(bs[0], long), bs[1].date, EndOf(bs[1], long));
  }
}
