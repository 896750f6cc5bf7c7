/**
 * The driver's dashboard: the bookings assigned to the signed-in driver, the trip in progress,
 * the trips waiting to start, and the two status changes a driver can make.
 */
module DriverDashboard {
  import opened Optional
  import opened Collections
  import opened Entities
  import opened Storage
  import CustomerDashboard
  import NewBookingModal

  /** The booking list the page starts from: the stored one, or an empty list when none is stored. */
  function InitialBookings(st: Store): (r: seq<Booking>)
    ensures LoadBookings(st).Some? ==> r == LoadBookings(st).value
    ensures LoadBookings(st).None? ==> r == []
  {
    LoadBookings(st).GetOr([])
  }

  /** The selector `b => b.driverId === user.id`. */
  function AssignedTo(userId: string): Booking -> bool {
    (b: Booking) => b.driverId == Some(userId)
  }

  predicate InTransit(b: Booking) {
    b.status == StatusInTransit
  }

  predicate Pending(b: Booking) {
    b.status == StatusPending
  }

  predicate Delivered(b: Booking) {
    b.status == StatusDelivered
  }

  /**
   * `driverTrips`: exactly the bookings whose `driverId` is the driver's id; order and copies:
   * `DriverTripsInOrder`.
   */
  function DriverTrips(bookings: seq<Booking>, userId: string): (r: seq<Booking>)
    ensures forall i | 0 <= i < |r| :: r[i] in bookings && r[i].driverId == Some(userId)
    ensures forall i | 0 <= i < |bookings| :: bookings[i].driverId == Some(userId) ==> bookings[i] in r
  {
    Filter(bookings, AssignedTo(userId))
  }

  /** The driver's trips keep their list order and their number of copies. */
  lemma DriverTripsInOrder(bookings: seq<Booking>, userId: string)
    ensures IsSubseq(DriverTrips(bookings, userId), bookings)
    ensures forall b: Booking | b.driverId == Some(userId) ::
              multiset(DriverTrips(bookings, userId))[b] == multiset(bookings)[b]
  {
    FilterKeepsOrder(bookings, AssignedTo(userId));
  }

  /**
   * `currentTrip`: the first of the driver's trips that is in transit, or none when no trip of
   * theirs is.
   */
  function CurrentTrip(bookings: seq<Booking>, userId: string): (r: Option<Booking>)
    ensures r.None? <==> forall b | b in DriverTrips(bookings, userId) :: b.status != StatusInTransit
    ensures r.Some? ==> r.value in bookings && r.value.driverId == Some(userId) && r.value.status == StatusInTransit
    ensures r.Some? ==> exists i :: FirstAt(DriverTrips(bookings, userId), InTransit, i)
                                      && r.value == DriverTrips(bookings, userId)[i]
  {
    var trips := DriverTrips(bookings, userId);
    Find(trips, InTransit)
  }

  /** `upcomingTrips`: exactly the driver's pending trips; order and copies: `UpcomingInOrder`. */
  function UpcomingTrips(bookings: seq<Booking>, userId: string): (r: seq<Booking>)
    ensures forall i | 0 <= i < |r| ::
              r[i] in bookings && r[i].driverId == Some(userId) && r[i].status == StatusPending
    ensures forall i | 0 <= i < |bookings| ::
              bookings[i].driverId == Some(userId) && bookings[i].status == StatusPending ==> bookings[i] in r
  {
    var trips := DriverTrips(bookings, userId);
    assert forall i | 0 <= i < |Filter(trips, Pending)| :: Filter(trips, Pending)[i] in trips;
    Filter(trips, Pending)
  }

  /**
   * The upcoming trips, a filter of a filter, keep the list order and every copy of the driver's
   * pending bookings.
   */
  lemma UpcomingInOrder(bookings: seq<Booking>, userId: string)
    ensures IsSubseq(UpcomingTrips(bookings, userId), bookings)
    ensures forall b: Booking | b.driverId == Some(userId) && b.status == StatusPending ::
              multiset(UpcomingTrips(bookings, userId))[b] == multiset(bookings)[b]
  {
    var trips := DriverTrips(bookings, userId);
    DriverTripsInOrder(bookings, userId);
    FilterKeepsOrder(trips, Pending);
    SubseqTrans(Filter(trips, Pending), trips, bookings);
  }

  datatype Stats = Stats(tripsCompleted: nat, upcomingTrips: nat)

  /** The two count cards: the driver's delivered trips and their pending trips. */
  function CountStats(bookings: seq<Booking>, userId: string): (s: Stats)
    ensures s.tripsCompleted == |Filter(DriverTrips(bookings, userId), Delivered)|
    ensures s.upcomingTrips == |UpcomingTrips(bookings, userId)|
    ensures s.tripsCompleted + s.upcomingTrips <= |DriverTrips(bookings, userId)|
  {
    var trips := DriverTrips(bookings, userId);
    FilterDisjointCount(trips, Delivered, Pending);
    Stats(|Filter(trips, Delivered)|, |Filter(trips, Pending)|)
  }

  /** Two filters whose tests never both hold pick, between them, at most the whole list. */
  lemma {:induction false} FilterDisjointCount<T>(s: seq<T>, p: T -> bool, q: T -> bool)
    requires forall x :: !(p(x) && q(x))
    ensures |Filter(s, p)| + |Filter(s, q)| <= |s|
    decreases |s|
  {
    if |s| > 0 {
      FilterDisjointCount(s[1..], p, q);
    }
  }

  function WithStatus(status: string): Booking -> Booking {
    (b: Booking) => b.(status := status)
  }

  /**
   * The list `handleTripAction` computes: every booking with the id gets the new status; every
   * other field, every other booking and the length are unchanged.
   */
  function TripAction(bookings: seq<Booking>, tripId: string, newStatus: string): (r: seq<Booking>)
    ensures |r| == |bookings|
    ensures forall i | 0 <= i < |bookings| && bookings[i].id == tripId :: r[i] == bookings[i].(status := newStatus)
    ensures forall i | 0 <= i < |bookings| && bookings[i].id != tripId :: r[i] == bookings[i]
  {
    MapWhere(bookings, BookingHasId(tripId), WithStatus(newStatus))
  }

  /** `handleTripAction`: the new list is both the page state and what storage now holds. */
  function HandleTripAction(st: Store, bookings: seq<Booking>, tripId: string, newStatus: string)
    : (r: (seq<Booking>, Store))
    ensures r.0 == TripAction(bookings, tripId, newStatus)
    ensures LoadBookings(r.1) == Some(r.0)
    ensures forall k | k != BookingsKey :: Get(r.1, k) == Get(st, k)
  {
    var updated := TripAction(bookings, tripId, newStatus);
    (updated, SaveBookings(st, updated))
  }

  /** Reopening the page after a trip action shows exactly the updated list. */
  lemma TripActionPersists(st: Store, bookings: seq<Booking>, tripId: string, newStatus: string)
    ensures var (updated, st') := HandleTripAction(st, bookings, tripId, newStatus);
            InitialBookings(st') == updated
  {
  }

  /** Repeating a trip action changes nothing further. */
  lemma TripActionIdempotent(bookings: seq<Booking>, tripId: string, newStatus: string)
    ensures TripAction(TripAction(bookings, tripId, newStatus), tripId, newStatus)
            == TripAction(bookings, tripId, newStatus)
  {
  }

  /** A trip action for an id no booking has leaves the list as it was. */
  lemma TripActionUnknownId(bookings: seq<Booking>, tripId: string, newStatus: string)
    requires forall i | 0 <= i < |bookings| :: bookings[i].id != tripId
    ensures TripAction(bookings, tripId, newStatus) == bookings
  {
  }

  /** The two buttons that call `handleTripAction`. */
  datatype Action =
    | StartTrip(tripId: string)   // on an upcoming trip's card
    | MarkDelivered               // on the current trip's card

  /** A button is on the page: Start Trip for each upcoming trip, Mark Delivered when a trip is current. */
  predicate Offered(bookings: seq<Booking>, userId: string, a: Action) {
    match a
    case StartTrip(id) => exists i | 0 <= i < |UpcomingTrips(bookings, userId)| :: UpcomingTrips(bookings, userId)[i].id == id
    case MarkDelivered => CurrentTrip(bookings, userId).Some?
  }

  /** The list after pressing an offered button. */
  function Press(bookings: seq<Booking>, userId: string, a: Action): (r: seq<Booking>)
    requires Offered(bookings, userId, a)
    ensures |r| == |bookings|
  {
    match a
    case StartTrip(id) => TripAction(bookings, id, StatusInTransit)
    case MarkDelivered => TripAction(bookings, CurrentTrip(bookings, userId).value.id, StatusDelivered)
  }

  /** The status a button moves a trip out of, and the one it moves it into. */
  function From(a: Action): string {
    if a.StartTrip? then StatusPending else StatusInTransit
  }

  function To(a: Action): string {
    if a.StartTrip? then StatusInTransit else StatusDelivered
  }

  /** The booking the pressed button acts on sits somewhere in the list with the button's source status. */
  lemma ActedOn(bookings: seq<Booking>, userId: string, a: Action) returns (k: nat)
    requires Offered(bookings, userId, a)
    ensures k < |bookings| && bookings[k].status == From(a)
    ensures bookings[k].driverId == Some(userId)
    ensures Press(bookings, userId, a) == TripAction(bookings, bookings[k].id, To(a))
  {
    match a
    case StartTrip(id) =>
      var up := UpcomingTrips(bookings, userId);
      var i :| 0 <= i < |up| && up[i].id == id;
      assert up[i] in bookings;
      k :| 0 <= k < |bookings| && bookings[k] == up[i];
    case MarkDelivered =>
      var t := CurrentTrip(bookings, userId).value;
      k :| 0 <= k < |bookings| && bookings[k] == t;
  }

  /**
   * With unique booking ids, each button moves exactly one of the driver's bookings, and only
   * forward: Start Trip from Pending to In Transit, Mark Delivered from In Transit to Delivered.
   */
  lemma PressMovesOneTripForward(bookings: seq<Booking>, userId: string, a: Action)
    requires UniqueBookingIds(bookings)
    requires Offered(bookings, userId, a)
    ensures var r := Press(bookings, userId, a);
            exists k | 0 <= k < |bookings| ::
              bookings[k].driverId == Some(userId) && bookings[k].status == From(a)
              && r[k] == bookings[k].(status := To(a))
              && forall j | 0 <= j < |bookings| && j != k :: r[j] == bookings[j]
  {
    var k := ActedOn(bookings, userId, a);
    var r := Press(bookings, userId, a);
    forall j | 0 <= j < |bookings| && j != k ensures r[j] == bookings[j] {
      assert bookings[j].id != bookings[k].id;
    }
  }

  /**
   * Without unique ids a button also acts on other drivers' bookings: Start Trip on one trip puts
   * a delivered booking that shares its id back in transit.
   */
  lemma DuplicateIdReopensDelivery()
    ensures var mine := Booking("TMS001", "Pune", "Goa", "Tea", None, StatusPending,
                                None, None, None, "₹100", None, None, Some("d1"), None);
            var theirs := Booking("TMS001", "Agra", "Delhi", "Rice", None, StatusDelivered,
                                  None, None, None, "₹200", None, None, Some("d2"), None);
            Offered([mine, theirs], "d1", StartTrip("TMS001"))
            && Press([mine, theirs], "d1", StartTrip("TMS001"))[1].status == StatusInTransit
  {
    var mine := Booking("TMS001", "Pune", "Goa", "Tea", None, StatusPending,
                        None, None, None, "₹100", None, None, Some("d1"), None);
    var theirs := Booking("TMS001", "Agra", "Delhi", "Rice", None, StatusDelivered,
                          None, None, None, "₹200", None, None, Some("d2"), None);
    assert [mine, theirs][1..] == [theirs];
    assert Filter([theirs], AssignedTo("d1")) == [];
    assert DriverTrips([mine, theirs], "d1") == [mine];
    assert UpcomingTrips([mine, theirs], "d1")[0] == mine;
  }

  /**
   * A booking made through the customer dashboard carries no `driverId`, so it is never among any
   * driver's trips: creating one leaves every driver's view unchanged.
   */
  lemma NewBookingNeverAssigned(bookings: seq<Booking>, req: NewBookingModal.BookingRequest, idRand: real, userId: string)
    requires 0.0 <= idRand < 1.0
    ensures DriverTrips(CustomerDashboard.HandleNewBooking(bookings, req, idRand), userId) == DriverTrips(bookings, userId)
  {
    var r := CustomerDashboard.HandleNewBooking(bookings, req, idRand);
    assert r[1..] == bookings;
  }
}
