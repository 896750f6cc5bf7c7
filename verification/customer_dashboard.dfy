/**
 * The customer's dashboard: the stored (or seeded) booking list and wallet balance, the
 * active/history split, creating a booking from the wizard's request, and topping up the wallet.
 */
module CustomerDashboard {
  import opened Optional
  import opened Text
  import opened Collections
  import opened Entities
  import opened Storage
  import opened DataTable
  import NewBookingModal
  import WalletModal

  /** The three bookings shown when nothing is stored. */
  const SeedBookings: seq<Booking> := [
    Booking("TMS001", "Mumbai, Maharashtra", "Delhi, NCR", "Electronics", None, StatusInTransit,
            Some("Rajesh Kumar"), Some("MH12AB1234"), Some("2025-10-05"), "₹15,000", None, None, None, None),
    Booking("TMS002", "Pune", "Bangalore", "Textiles", None, StatusDelivered,
            None, None, None, "₹12,500", Some("2025-09-15"), Some("Pune → Bangalore"), None, None),
    Booking("TMS003", "Chennai", "Kolkata", "Machinery", None, StatusDelivered,
            None, None, None, "₹18,000", Some("2025-09-10"), Some("Chennai → Kolkata"), None, None)
  ]

  const DefaultBalance: real := 5000.0

  /** The initial bookings state: the stored list, or the seed list when the key is absent. */
  function InitialBookings(st: Store): (r: seq<Booking>)
    ensures LoadBookings(st).Some? ==> r == LoadBookings(st).value
    ensures LoadBookings(st).None? ==> r == SeedBookings
  {
    LoadBookings(st).GetOr(SeedBookings)
  }

  /** The initial balance: the stored one, or 5000 when the key is absent. */
  function InitialBalance(st: Store): (r: real)
    ensures LoadBalance(st).Some? ==> r == LoadBalance(st).value
    ensures LoadBalance(st).None? ==> r == DefaultBalance
  {
    LoadBalance(st).GetOr(DefaultBalance)
  }

  /** The two effects that mirror state into storage after every change. */
  function Persist(st: Store, bookings: seq<Booking>, balance: real): (r: Store)
    ensures LoadBookings(r) == Some(bookings) && LoadBalance(r) == Some(balance)
    ensures forall k | k != BookingsKey && k != BalanceKey :: Get(r, k) == Get(st, k)
  {
    SaveBalance(SaveBookings(st, bookings), balance)
  }

  /** Remounting the dashboard on what it persisted restores exactly the same state. */
  lemma PersistRoundTrip(st: Store, bookings: seq<Booking>, balance: real)
    ensures InitialBookings(Persist(st, bookings, balance)) == bookings
    ensures InitialBalance(Persist(st, bookings, balance)) == balance
  {
    var st1 := SaveBookings(st, bookings);
    assert Get(Persist(st, bookings, balance), BookingsKey) == Get(st1, BookingsKey);
  }

  predicate IsActive(b: Booking) {
    b.status == StatusInTransit || b.status == StatusPending
  }

  predicate IsHistory(b: Booking) {
    b.status == StatusDelivered || b.status == StatusCancelled
  }

  /** `activeBookings`: exactly the bookings in transit or pending; order and copies: `ViewsInOrder`. */
  function ActiveBookings(bookings: seq<Booking>): (r: seq<Booking>)
    ensures forall i | 0 <= i < |r| :: r[i] in bookings && (r[i].status == StatusInTransit || r[i].status == StatusPending)
    ensures forall i | 0 <= i < |bookings| ::
              bookings[i].status == StatusInTransit || bookings[i].status == StatusPending ==> bookings[i] in r
  {
    Filter(bookings, IsActive)
  }

  /** `bookingHistory`: exactly the bookings delivered or cancelled; order and copies: `ViewsInOrder`. */
  function BookingHistory(bookings: seq<Booking>): (r: seq<Booking>)
    ensures forall i | 0 <= i < |r| :: r[i] in bookings && (r[i].status == StatusDelivered || r[i].status == StatusCancelled)
    ensures forall i | 0 <= i < |bookings| ::
              bookings[i].status == StatusDelivered || bookings[i].status == StatusCancelled ==> bookings[i] in r
  {
    Filter(bookings, IsHistory)
  }

  /** Both views keep the list order and every copy of the bookings they select. */
  lemma ViewsInOrder(bookings: seq<Booking>)
    ensures IsSubseq(ActiveBookings(bookings), bookings) && IsSubseq(BookingHistory(bookings), bookings)
    ensures forall b | IsActive(b) :: multiset(ActiveBookings(bookings))[b] == multiset(bookings)[b]
    ensures forall b | IsHistory(b) :: multiset(BookingHistory(bookings))[b] == multiset(bookings)[b]
  {
    FilterKeepsOrder(bookings, IsActive);
    FilterKeepsOrder(bookings, IsHistory);
  }

  /**
   * The two views never share a booking, and a booking with one of the four known statuses is in
   * exactly one of them; a booking with any other status is in neither.
   */
  lemma ActiveHistoryPartition(bookings: seq<Booking>)
    ensures forall b | b in ActiveBookings(bookings) :: b !in BookingHistory(bookings)
    ensures forall i | 0 <= i < |bookings| ::
              (bookings[i] in ActiveBookings(bookings) || bookings[i] in BookingHistory(bookings)) <==>
              bookings[i].status in {StatusPending, StatusInTransit, StatusDelivered, StatusCancelled}
  {
    ViewsDisjoint(bookings);
    ViewsCover(bookings);
  }

  lemma ViewsDisjoint(bookings: seq<Booking>)
    ensures forall b | b in ActiveBookings(bookings) :: b !in BookingHistory(bookings)
  {
    var a := ActiveBookings(bookings);
    var h := BookingHistory(bookings);
    forall b | b in a ensures b !in h {
      FilterMember(bookings, IsActive, b);
      assert !IsHistory(b);
      if b in h {
        FilterMember(bookings, IsHistory, b);
      }
    }
  }

  lemma ViewsCover(bookings: seq<Booking>)
    ensures forall i | 0 <= i < |bookings| ::
              (bookings[i] in ActiveBookings(bookings) || bookings[i] in BookingHistory(bookings)) <==>
              bookings[i].status in {StatusPending, StatusInTransit, StatusDelivered, StatusCancelled}
  {
    var a := ActiveBookings(bookings);
    var h := BookingHistory(bookings);
    forall i | 0 <= i < |bookings| && (bookings[i] in a || bookings[i] in h)
      ensures bookings[i].status in {StatusPending, StatusInTransit, StatusDelivered, StatusCancelled}
    {
      if bookings[i] in a {
        FilterMember(bookings, IsActive, bookings[i]);
      } else {
        FilterMember(bookings, IsHistory, bookings[i]);
      }
    }
  }

  /** `(Math.random() * 1000).toFixed(0)` for a draw `r` in [0, 1): rounding half up. */
  function IdDraw(r: real): (n: nat)
    requires 0.0 <= r < 1.0
    ensures n <= 1000
  {
    (r * 1000.0 + 0.5).Floor
  }

  /**
   * `TMS` followed by the draw padded to three digits. The id is determined by the draw alone,
   * so nothing makes it unique among stored bookings.
   */
  function BookingId(n: nat): (id: string)
    requires n <= 1000
    ensures |id| == (if n < 1000 then 6 else 7)
    ensures id[..3] == "TMS"
    ensures IsDigits(id[3..]) && DecimalValue(id[3..]) == n
  {
    var padded := PadStart(NatToDecimal(n), 3, '0');
    PaddedDecimal(n);
    var id := "TMS" + padded;
    assert id[3..] == padded;
    id
  }

  /** Zero-padding the decimal rendering to three places keeps its value. */
  lemma PaddedDecimal(n: nat)
    requires n <= 1000
    ensures var padded := PadStart(NatToDecimal(n), 3, '0');
            && |padded| == (if n < 1000 then 3 else 4)
            && IsDigits(padded) && DecimalValue(padded) == n
  {
    var digits := NatToDecimal(n);
    if n < 1000 {
      DecimalLengthBelow1000(n);
    } else {
      Decimal1000();
    }
    PadKeepsValue(digits, 3);
    DecimalRoundTrip(n);
  }

  /** Ids from different draws differ; equal draws give equal ids. */
  lemma BookingIdInjective(m: nat, n: nat)
    requires m <= 1000 && n <= 1000
    ensures BookingId(m) == BookingId(n) <==> m == n
  {
  }

  /**
   * The record `handleNewBooking` builds: the request's fields, the id `TMS` plus the drawn number,
   * status Pending, driver and vehicle "Assigning...", delivery "TBD"; no date, route, `driverId`
   * or `ownerId` is set.
   */
  function NewBooking(req: NewBookingModal.BookingRequest, idRand: real): (b: Booking)
    requires 0.0 <= idRand < 1.0
    ensures b.pickup == req.pickup && b.dropoff == req.dropoff && b.cargo == req.cargo
    ensures b.weight == Some(req.weight) && b.amount == req.amount
    ensures b.status == StatusPending
    ensures b.driver == Some("Assigning...") && b.vehicle == Some("Assigning...")
    ensures b.estimatedDelivery == Some("TBD")
    ensures b.driverId == None && b.ownerId == None
    ensures b.date == None && b.route == None
    ensures b.id == BookingId(IdDraw(idRand))
    ensures |b.id| >= 6 && b.id[..3] == "TMS"
    ensures IsDigits(b.id[3..]) && DecimalValue(b.id[3..]) == IdDraw(idRand)
  {
    Booking(BookingId(IdDraw(idRand)), req.pickup, req.dropoff, req.cargo, Some(req.weight), StatusPending,
            Some("Assigning..."), Some("Assigning..."), Some("TBD"), req.amount, None, None, None, None)
  }

  /** `handleNewBooking`: the new record is prepended and the earlier bookings follow unchanged. */
  function HandleNewBooking(bookings: seq<Booking>, req: NewBookingModal.BookingRequest, idRand: real): (r: seq<Booking>)
    requires 0.0 <= idRand < 1.0
    ensures |r| == |bookings| + 1
    ensures r[0] == NewBooking(req, idRand) && r[1..] == bookings
  {
    [NewBooking(req, idRand)] + bookings
  }

  /** A new booking joins the active view and leaves the history view as it was. */
  lemma NewBookingIsActive(bookings: seq<Booking>, req: NewBookingModal.BookingRequest, idRand: real)
    requires 0.0 <= idRand < 1.0
    ensures ActiveBookings(HandleNewBooking(bookings, req, idRand)) == [NewBooking(req, idRand)] + ActiveBookings(bookings)
    ensures BookingHistory(HandleNewBooking(bookings, req, idRand)) == BookingHistory(bookings)
  {
    var r := HandleNewBooking(bookings, req, idRand);
    assert r[1..] == bookings;
  }

  datatype Stats = Stats(totalBookings: nat, activeShipments: nat)

  /** The two count cards: the list length and the active view's size. */
  function CountStats(bookings: seq<Booking>): (s: Stats)
    ensures s.totalBookings == |bookings|
    ensures s.activeShipments == |ActiveBookings(bookings)| && s.activeShipments <= s.totalBookings
  {
    Stats(|bookings|, |ActiveBookings(bookings)|)
  }

  /** `handleAddMoney`. */
  function AddMoney(balance: real, amount: real): (r: real)
    ensures r - balance == amount
  {
    balance + amount
  }

  /**
   * A top-up through the wallet dialog: a positive parsed amount raises the balance by exactly
   * that amount; anything else leaves it unchanged.
   */
  function TopUp(balance: real, parsed: Option<real>): (r: real)
    ensures parsed.Some? && parsed.value > 0.0 ==> r == balance + parsed.value
    ensures parsed.None? || parsed.value <= 0.0 ==> r == balance
    ensures r >= balance
  {
    match WalletModal.HandleAdd(parsed)
    case AddMoney(a) => AddMoney(balance, a)
    case InvalidAmount => balance
  }

  /** `getStatusColor` of the booking cards: an exact match on three statuses, gray otherwise. */
  function CardTone(status: string): (t: Tone)
    ensures status == StatusInTransit <==> t == Blue
    ensures status == StatusDelivered <==> t == Green
    ensures status == StatusPending <==> t == Yellow
    ensures t != Red
  {
    match status
    case "In Transit" => Blue
    case "Delivered" => Green
    case "Pending" => Yellow
    case _ => Gray
  }

  /** The seed list has one active booking and two in the history. */
  lemma SeedSplit()
    ensures |ActiveBookings(SeedBookings)| == 1 && |BookingHistory(SeedBookings)| == 2
  {
    SeedCount(IsActive);
    SeedCount(IsHistory);
  }

  /** How many seed bookings a test passes, counted one record at a time. */
  lemma SeedCount(p: Booking -> bool)
    ensures |Filter(SeedBookings, p)|
            == (if p(SeedBookings[0]) then 1 else 0) + (if p(SeedBookings[1]) then 1 else 0)
               + (if p(SeedBookings[2]) then 1 else 0)
  {
    var s := SeedBookings;
    assert s[1..][1..][1..] == [];
    FilterLengthStep(s, p);
    FilterLengthStep(s[1..], p);
    FilterLengthStep(s[1..][1..], p);
  }
}
