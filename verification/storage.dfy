/**
 * Browser local storage as an in-memory map from key to the collection stored under it.
 * Every handler reads a whole collection, transforms it, and writes the whole collection back.
 */
module Storage {
  import opened Optional
  import opened Entities

  /** What one key holds: the session record, a collection, or the wallet balance. */
  datatype Blob =
    | SessionBlob(user: User)
    | UsersBlob(users: seq<User>)
    | BookingsBlob(bookings: seq<Booking>)
    | BalanceBlob(balance: real)
    | VehiclesBlob(vehicles: seq<Vehicle>)
    | DriversBlob(drivers: seq<FleetDriver>)

  type Store = map<string, Blob>

  const SessionKey := "tms_user"
  const UsersKey := "tms_users"
  const BookingsKey := "tms_customer_bookings"
  const BalanceKey := "tms_wallet_balance"

  /** The per-owner vehicle collection key `tms_vehicles_<ownerId>`. */
  function VehiclesKey(ownerId: string): string {
    "tms_vehicles_" + ownerId
  }

  /** The per-owner driver collection key `tms_drivers_<ownerId>`. */
  function DriversKey(ownerId: string): string {
    "tms_drivers_" + ownerId
  }

  /** `localStorage.getItem(key)`, with None for null. */
  function Get(st: Store, key: string): Option<Blob> {
    if key in st then Some(st[key]) else None
  }

  /** `localStorage.setItem(key, blob)`: the key now holds `blob`, every other key is untouched. */
  function Put(st: Store, key: string, blob: Blob): (r: Store)
    ensures Get(r, key) == Some(blob)
    ensures forall k | k != key :: Get(r, k) == Get(st, k)
  {
    st[key := blob]
  }

  /** `localStorage.removeItem(key)`: the key is now absent, every other key is untouched. */
  function Remove(st: Store, key: string): (r: Store)
    ensures Get(r, key) == None
    ensures forall k | k != key :: Get(r, k) == Get(st, k)
  {
    st - {key}
  }

  function LoadSession(st: Store): Option<User> {
    match Get(st, SessionKey)
    case Some(SessionBlob(u)) => Some(u)
    case _ => None
  }

  /** `JSON.parse(localStorage.getItem('tms_users')) || []`. */
  function LoadUsers(st: Store): seq<User> {
    match Get(st, UsersKey)
    case Some(UsersBlob(us)) => us
    case _ => []
  }

  function SaveUsers(st: Store, users: seq<User>): (r: Store)
    ensures LoadUsers(r) == users
    ensures forall k | k != UsersKey :: Get(r, k) == Get(st, k)
  {
    Put(st, UsersKey, UsersBlob(users))
  }

  /** The stored booking list, or None when the key is absent (callers choose the default). */
  function LoadBookings(st: Store): Option<seq<Booking>> {
    match Get(st, BookingsKey)
    case Some(BookingsBlob(bs)) => Some(bs)
    case _ => None
  }

  function SaveBookings(st: Store, bookings: seq<Booking>): (r: Store)
    ensures LoadBookings(r) == Some(bookings)
    ensures forall k | k != BookingsKey :: Get(r, k) == Get(st, k)
  {
    Put(st, BookingsKey, BookingsBlob(bookings))
  }

  function LoadBalance(st: Store): Option<real> {
    match Get(st, BalanceKey)
    case Some(BalanceBlob(b)) => Some(b)
    case _ => None
  }

  function SaveBalance(st: Store, balance: real): (r: Store)
    ensures LoadBalance(r) == Some(balance)
    ensures forall k | k != BalanceKey :: Get(r, k) == Get(st, k)
  {
    Put(st, BalanceKey, BalanceBlob(balance))
  }

  function LoadVehicles(st: Store, ownerId: string): seq<Vehicle> {
    match Get(st, VehiclesKey(ownerId))
    case Some(VehiclesBlob(vs)) => vs
    case _ => []
  }

  function LoadDrivers(st: Store, ownerId: string): seq<FleetDriver> {
    match Get(st, DriversKey(ownerId))
    case Some(DriversBlob(ds)) => ds
    case _ => []
  }

  /** The fixed keys shared by every session. */
  const FixedKeys: set<string> := {SessionKey, UsersKey, BookingsKey, BalanceKey}

  /**
   * Per-owner keys never collide: two owners share a vehicle (or driver) key only when they are
   * the same owner, a vehicle key is never a driver key, and neither is a fixed key.
   */
  lemma OwnerKeysSeparate(a: string, b: string)
    ensures VehiclesKey(a) == VehiclesKey(b) <==> a == b
    ensures DriversKey(a) == DriversKey(b) <==> a == b
    ensures VehiclesKey(a) != DriversKey(b)
    ensures VehiclesKey(a) !in FixedKeys && DriversKey(a) !in FixedKeys
  {
    if VehiclesKey(a) == VehiclesKey(b) {
      assert a == VehiclesKey(a)[13..] && b == VehiclesKey(b)[13..];
    }
    if DriversKey(a) == DriversKey(b) {
      assert a == DriversKey(a)[12..] && b == DriversKey(b)[12..];
    }
    assert VehiclesKey(a)[4] == 'v' && DriversKey(b)[4] == 'd';
    assert SessionKey[4] == 'u' && UsersKey[4] == 'u' && BookingsKey[4] == 'c' && BalanceKey[4] == 'w';
  }
}
