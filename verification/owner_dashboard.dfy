/**
 * The fleet owner's dashboard: the vehicle and driver collections kept under keys derived from
 * the owner's id, the bookings that name the owner, and the count cards built from them.
 */
module OwnerDashboard {
  import opened Optional
  import opened Collections
  import opened Entities
  import opened Storage
  import DriverDashboard

  /** What the page holds after mounting. */
  datatype Fleet = Fleet(vehicles: seq<Vehicle>, drivers: seq<FleetDriver>, bookings: seq<Booking>)

  /**
   * Mounting reads the owner's vehicles and drivers from their own keys and the shared booking
   * list, each defaulting to an empty list.
   */
  function Mount(st: Store, ownerId: string): (f: Fleet)
    ensures f.vehicles == LoadVehicles(st, ownerId) && f.drivers == LoadDrivers(st, ownerId)
    ensures Get(st, VehiclesKey(ownerId)).None? ==> f.vehicles == []
    ensures Get(st, DriversKey(ownerId)).None? ==> f.drivers == []
    ensures f.bookings == (if LoadBookings(st).Some? then LoadBookings(st).value else [])
  {
    Fleet(LoadVehicles(st, ownerId), LoadDrivers(st, ownerId), LoadBookings(st).GetOr([]))
  }

  /** The two effects: each collection is written back under the owner's own key. */
  function PersistFleet(st: Store, ownerId: string, vehicles: seq<Vehicle>, drivers: seq<FleetDriver>): (r: Store)
    ensures LoadVehicles(r, ownerId) == vehicles && LoadDrivers(r, ownerId) == drivers
    ensures forall k | k != VehiclesKey(ownerId) && k != DriversKey(ownerId) :: Get(r, k) == Get(st, k)
  {
    OwnerKeysSeparate(ownerId, ownerId);
    Put(Put(st, VehiclesKey(ownerId), VehiclesBlob(vehicles)), DriversKey(ownerId), DriversBlob(drivers))
  }

  /** The effects running after mount write back what was read: mounting again sees the same page. */
  lemma MountPersistStable(st: Store, ownerId: string)
    ensures var f := Mount(st, ownerId);
            Mount(PersistFleet(st, ownerId, f.vehicles, f.drivers), ownerId) == f
  {
    OwnerKeysSeparate(ownerId, ownerId);
    var f := Mount(st, ownerId);
    var r := PersistFleet(st, ownerId, f.vehicles, f.drivers);
    assert Get(r, BookingsKey) == Get(st, BookingsKey);
  }

  /**
   * One owner's writes never reach another owner's collections, the booking list, the user list
   * or the session.
   */
  lemma OwnersIsolated(st: Store, a: string, b: string, vehicles: seq<Vehicle>, drivers: seq<FleetDriver>)
    requires a != b
    ensures var r := PersistFleet(st, a, vehicles, drivers);
            && LoadVehicles(r, b) == LoadVehicles(st, b)
            && LoadDrivers(r, b) == LoadDrivers(st, b)
            && LoadBookings(r) == LoadBookings(st)
            && LoadUsers(r) == LoadUsers(st)
            && LoadSession(r) == LoadSession(st)
  {
    OwnerKeysSeparate(a, b);
    OwnerKeysSeparate(b, a);
    var r := PersistFleet(st, a, vehicles, drivers);
    assert Get(r, VehiclesKey(b)) == Get(st, VehiclesKey(b));
    assert Get(r, DriversKey(b)) == Get(st, DriversKey(b));
    assert Get(r, BookingsKey) == Get(st, BookingsKey);
    assert Get(r, UsersKey) == Get(st, UsersKey);
    assert Get(r, SessionKey) == Get(st, SessionKey);
  }

  /** The selector `b => b.ownerId === user.id`. */
  function OwnedBy(ownerId: string): Booking -> bool {
    (b: Booking) => b.ownerId == Some(ownerId)
  }

  /**
   * `ownerBookings`: exactly the bookings whose `ownerId` is the owner's id; order and copies:
   * `OwnerBookingsInOrder`.
   */
  function OwnerBookings(bookings: seq<Booking>, ownerId: string): (r: seq<Booking>)
    ensures forall i | 0 <= i < |r| :: r[i] in bookings && r[i].ownerId == Some(ownerId)
    ensures forall i | 0 <= i < |bookings| :: bookings[i].ownerId == Some(ownerId) ==> bookings[i] in r
  {
    Filter(bookings, OwnedBy(ownerId))
  }

  /** The owner's bookings keep their list order and their number of copies. */
  lemma OwnerBookingsInOrder(bookings: seq<Booking>, ownerId: string)
    ensures IsSubseq(OwnerBookings(bookings, ownerId), bookings)
    ensures forall b: Booking | b.ownerId == Some(ownerId) ::
              multiset(OwnerBookings(bookings, ownerId))[b] == multiset(bookings)[b]
  {
    FilterKeepsOrder(bookings, OwnedBy(ownerId));
  }

  datatype Stats = Stats(totalVehicles: nat, activeDrivers: nat, activeTrips: nat)

  /**
   * The count cards: every vehicle and every driver in the owner's collections, and the owner's
   * bookings in transit.
   */
  function CountStats(f: Fleet, ownerId: string): (s: Stats)
    ensures s.totalVehicles == |f.vehicles| && s.activeDrivers == |f.drivers|
    ensures s.activeTrips == |Filter(OwnerBookings(f.bookings, ownerId), DriverDashboard.InTransit)|
    ensures s.activeTrips <= |OwnerBookings(f.bookings, ownerId)|
  {
    Stats(|f.vehicles|, |f.drivers|, |Filter(OwnerBookings(f.bookings, ownerId), DriverDashboard.InTransit)|)
  }

  /**
   * A trip action on an id that none of the owner's bookings has leaves the owner's bookings,
   * and so the active-trip card, exactly as they were.
   */
  lemma {:induction false} TripActionElsewhere(bookings: seq<Booking>, ownerId: string, tripId: string, newStatus: string)
    requires forall i | 0 <= i < |bookings| :: bookings[i].id == tripId ==> bookings[i].ownerId != Some(ownerId)
    ensures OwnerBookings(DriverDashboard.TripAction(bookings, tripId, newStatus), ownerId) == OwnerBookings(bookings, ownerId)
    decreases |bookings|
  {
    if |bookings| > 0 {
      var r := DriverDashboard.TripAction(bookings, tripId, newStatus);
      assert r[1..] == DriverDashboard.TripAction(bookings[1..], tripId, newStatus);
      assert forall i | 0 <= i < |bookings[1..]| :: bookings[1..][i] == bookings[i + 1];
      TripActionElsewhere(bookings[1..], ownerId, tripId, newStatus);
      assert OwnedBy(ownerId)(r[0]) == OwnedBy(ownerId)(bookings[0]);
    }
  }

  /**
   * A status change never moves a booking between owners: the owner's bookings after the action
   * are their bookings before it, with the same status change applied.
   */
  lemma {:induction false} TripActionKeepsOwnership(bookings: seq<Booking>, ownerId: string, tripId: string, newStatus: string)
    ensures OwnerBookings(DriverDashboard.TripAction(bookings, tripId, newStatus), ownerId)
            == DriverDashboard.TripAction(OwnerBookings(bookings, ownerId), tripId, newStatus)
    decreases |bookings|
  {
    if |bookings| > 0 {
      var r := DriverDashboard.TripAction(bookings, tripId, newStatus);
      assert r[1..] == DriverDashboard.TripAction(bookings[1..], tripId, newStatus);
      TripActionKeepsOwnership(bookings[1..], ownerId, tripId, newStatus);
      assert OwnedBy(ownerId)(r[0]) == OwnedBy(ownerId)(bookings[0]);
      if OwnedBy(ownerId)(bookings[0]) {
        var o := OwnerBookings(bookings, ownerId);
        assert o == [bookings[0]] + OwnerBookings(bookings[1..], ownerId);
        assert DriverDashboard.TripAction(o, tripId, newStatus)[1..]
               == DriverDashboard.TripAction(o[1..], tripId, newStatus);
      }
    }
  }
}
