/**
 * The three-step booking wizard: route, then cargo, then a fare reveal and confirmation. Each
 * forward step is gated on the fields of the current step; the fare is drawn on leaving step 2.
 */
module NewBookingModal {

  datatype Details = Details(pickup: string, dropoff: string, cargo: string, weight: string)

  datatype Wizard = Wizard(step: int, details: Details, fare: int)

  /** The wizard as opened: step 1, every field empty, fare 0. */
  const Initial := Wizard(1, Details("", "", "", ""), 0)

  /** `Math.floor(Math.random() * (25000 - 5000 + 1)) + 5000` for a draw `r` in [0, 1). */
  function FareFromRandom(r: real): (f: int)
    requires 0.0 <= r < 1.0
    ensures 5000 <= f <= 25000
  {
    (r * 20001.0).Floor + 5000
  }

  datatype FieldName = Pickup | Dropoff | Cargo | Weight

  /** `handleChange`: one detail field takes the typed value. */
  function Change(w: Wizard, field: FieldName, value: string): (r: Wizard)
    ensures r.step == w.step && r.fare == w.fare
    ensures field == Pickup ==> r.details == w.details.(pickup := value)
    ensures field == Dropoff ==> r.details == w.details.(dropoff := value)
    ensures field == Cargo ==> r.details == w.details.(cargo := value)
    ensures field == Weight ==> r.details == w.details.(weight := value)
  {
    var d := w.details;
    var d' := match field
      case Pickup => d.(pickup := value)
      case Dropoff => d.(dropoff := value)
      case Cargo => d.(cargo := value)
      case Weight => d.(weight := value);
    w.(details := d')
  }

  /**
   * `handleNext`. At step 1 it advances only with pickup and drop-off filled in; at step 2 only
   * with cargo and weight filled in, and then draws the fare; any other step just advances.
   * A refused step leaves the wizard unchanged (an error toast is shown).
   */
  function Next(w: Wizard, rand: real): (r: Wizard)
    requires 0.0 <= rand < 1.0
    ensures r.details == w.details
    ensures w.step == 1 ==>
              r == (if w.details.pickup == "" || w.details.dropoff == "" then w else w.(step := 2))
    ensures w.step == 2 && (w.details.cargo == "" || w.details.weight == "") ==> r == w
    ensures w.step == 2 && w.details.cargo != "" && w.details.weight != "" ==>
              r.step == 3 && 5000 <= r.fare <= 25000
    ensures w.step != 1 && w.step != 2 ==> r == w.(step := w.step + 1)
  {
    if w.step == 1 && (w.details.pickup == "" || w.details.dropoff == "") then w
    else if w.step == 2 && (w.details.cargo == "" || w.details.weight == "") then w
    else if w.step == 2 then w.(fare := FareFromRandom(rand), step := 3)
    else w.(step := w.step + 1)
  }

  /** `handleBack`. */
  function Back(w: Wizard): (r: Wizard)
    ensures r.step == w.step - 1 && r.details == w.details && r.fare == w.fare
  {
    w.(step := w.step - 1)
  }

  /** What `onBook` receives: the four details and the fare rendered as a rupee amount. */
  datatype BookingRequest = BookingRequest(pickup: string, dropoff: string, cargo: string, weight: string, amount: string)

  /**
   * `handleConfirmBooking`. `formatFare` stands for `Number.prototype.toLocaleString`, whose
   * output depends on the browser locale.
   */
  function Confirm(w: Wizard, formatFare: int -> string): (r: BookingRequest)
    ensures r.pickup == w.details.pickup && r.dropoff == w.details.dropoff
    ensures r.cargo == w.details.cargo && r.weight == w.details.weight
    ensures r.amount == "₹" + formatFare(w.fare)
  {
    BookingRequest(w.details.pickup, w.details.dropoff, w.details.cargo, w.details.weight,
                   "₹" + formatFare(w.fare))
  }

  /** A user action on the rendered wizard. */
  datatype Event = Edit(field: FieldName, value: string) | NextClicked(rand: real) | BackClicked | ConfirmClicked

  /**
   * What the rendered step offers: step 1 shows the route inputs and Next; step 2 the cargo
   * inputs, Back and Next; step 3 Back and Confirm. Random draws lie in [0, 1).
   */
  predicate Offered(w: Wizard, e: Event) {
    match e
    case Edit(f, _) => (w.step == 1 && (f == Pickup || f == Dropoff)) || (w.step == 2 && (f == Cargo || f == Weight))
    case NextClicked(r) => (w.step == 1 || w.step == 2) && 0.0 <= r < 1.0
    case BackClicked => w.step == 2 || w.step == 3
    case ConfirmClicked => w.step == 3
  }

  /** The wizard after an offered event; confirming closes the modal and leaves the state as is. */
  function Step(w: Wizard, e: Event): Wizard
    requires Offered(w, e)
  {
    match e
    case Edit(f, v) => Change(w, f, v)
    case NextClicked(r) => Next(w, r)
    case BackClicked => Back(w)
    case ConfirmClicked => w
  }

  /**
   * What holds of every wizard the user can reach: the step is 1, 2 or 3; past step 1 the route
   * is filled in; at step 3 the cargo is filled in and the fare lies in [5000, 25000].
   */
  ghost predicate Inv(w: Wizard) {
    && 1 <= w.step <= 3
    && (w.step >= 2 ==> w.details.pickup != "" && w.details.dropoff != "")
    && (w.step == 3 ==> w.details.cargo != "" && w.details.weight != "" && 5000 <= w.fare <= 25000)
  }

  lemma InitialInv()
    ensures Inv(Initial)
  {
  }

  /** Every offered event keeps the invariant, so the step never leaves 1..3. */
  lemma StepKeepsInv(w: Wizard, e: Event)
    requires Inv(w) && Offered(w, e)
    ensures Inv(Step(w, e))
    ensures 1 <= Step(w, e).step <= 3
  {
  }

  /** Reachable by a sequence of offered events from the initial wizard. */
  ghost predicate Run(w: Wizard, events: seq<Event>, w': Wizard)
    decreases |events|
  {
    if |events| == 0 then w' == w
    else Offered(w, events[0]) && Run(Step(w, events[0]), events[1..], w')
  }

  lemma {:induction false} RunKeepsInv(w: Wizard, events: seq<Event>, w': Wizard)
    requires Inv(w) && Run(w, events, w')
    ensures Inv(w')
    decreases |events|
  {
    if |events| > 0 {
      StepKeepsInv(w, events[0]);
      RunKeepsInv(Step(w, events[0]), events[1..], w');
    }
  }

  /**
   * Whatever the user did, a confirmation from a reachable wizard emits non-empty route and cargo
   * fields and an amount rendered from a fare in [5000, 25000].
   */
  lemma ConfirmedRequestComplete(events: seq<Event>, w: Wizard, formatFare: int -> string)
    requires Run(Initial, events, w) && Offered(w, ConfirmClicked)
    ensures var r := Confirm(w, formatFare);
            && r.pickup != "" && r.dropoff != "" && r.cargo != "" && r.weight != ""
            && 5000 <= w.fare <= 25000 && r.amount == "₹" + formatFare(w.fare)
  {
    RunKeepsInv(Initial, events, w);
  }
}
