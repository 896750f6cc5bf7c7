/**
 * The flat records the application keeps in browser storage. A JavaScript object may lack a
 * key; such keys are `Option` fields here, and a missing key reads as `None` (`undefined`).
 */
module Entities {
  import opened Optional
  import opened Text

  const AdminRole := "admin"
  const OwnerRole := "owner"
  const DriverRole := "driver"
  const CustomerRole := "customer"
  const VendorRole := "vendor"

  /**
   * An account. Records written by sign-up, by the admin form and by the admin seed carry every
   * key; the super-admin session record produced at login has neither `password` nor `verified`,
   * and the admin form may save a record without `password`.
   */
  datatype User = User(
    id: string,
    name: string,
    email: string,
    password: Option<string>,
    role: string,
    verified: Option<bool>)

  /**
   * A shipment booking. Seed records and created records carry different subsets of keys
   * (`route`/`date` versus `driver`/`vehicle`/`estimatedDelivery`/`weight`); `driverId` and
   * `ownerId` are read by the driver and owner dashboards but written by no handler.
   */
  datatype Booking = Booking(
    id: string,
    pickup: string,
    dropoff: string,
    cargo: string,
    weight: Option<string>,
    status: string,
    driver: Option<string>,
    vehicle: Option<string>,
    estimatedDelivery: Option<string>,
    amount: string,
    date: Option<string>,
    route: Option<string>,
    driverId: Option<string>,
    ownerId: Option<string>)

  const StatusPending := "Pending"
  const StatusInTransit := "In Transit"
  const StatusDelivered := "Delivered"
  const StatusCancelled := "Cancelled"

  /** A truck in a fleet owner's collection. */
  datatype Vehicle = Vehicle(id: string, number: string, kind: string, driver: string, status: string)

  /** A driver in a fleet owner's collection. */
  datatype FleetDriver = FleetDriver(id: string, name: string)

  /** Each record in `users` has an id no other record has. */
  ghost predicate UniqueIds(users: seq<User>) {
    forall i, j | 0 <= i < j < |users| :: users[i].id != users[j].id
  }

  ghost predicate UniqueBookingIds(bookings: seq<Booking>) {
    forall i, j | 0 <= i < j < |bookings| :: bookings[i].id != bookings[j].id
  }

  /** The selector `u => u.id === id`. */
  function UserHasId(id: string): User -> bool {
    (u: User) => u.id == id
  }

  /** The selector `b => b.id === id`. */
  function BookingHasId(id: string): Booking -> bool {
    (b: Booking) => b.id == id
  }

  /** The id `user-<Date.now()>` given to users created by sign-up and by the admin form. */
  function NewUserId(now: nat): string {
    "user-" + NatToDecimal(now)
  }

  /** Ids issued at different instants differ. */
  lemma NewUserIdInjective(a: nat, b: nat)
    requires NewUserId(a) == NewUserId(b)
    ensures a == b
  {
    assert NatToDecimal(a) == NewUserId(a)[5..];
    assert NatToDecimal(b) == NewUserId(b)[5..];
    DecimalRoundTrip(a);
    DecimalRoundTrip(b);
  }
}
