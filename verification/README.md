# JR Transport Management — a Dafny model of the booking and account logic

JR Transport Management is a single-page React demo for booking return-journey trucks. It has
no server: every account, booking, wallet balance and fleet collection lives in the browser's
local storage as JSON, and every handler reads a whole collection, changes it, and writes the
whole collection back. This project models that logic as pure Dafny functions over an explicit
store and proves what the handlers promise:

- **Boot and session** (`App`): the admin account is seeded when missing. Sign-up appends an
  account with a time-based id. Login writes the session record and logout removes it. The
  dashboard is chosen by role.
- **Login and sign-up forms** (`LoginPage`, `SignUpPage`): the order in which the guards fire,
  the hard-coded super-admin, the first-match lookup, and the auto-verification of customers.
- **Admin console** (`AdminHome`, `UserManagement`, `AddEditUserModal`):
  - the pending-approval queue and approve/reject;
  - add/edit with a merge that keeps a blank password;
  - delete guarded against admins;
  - search;
  - form validation, including the email pattern `\S+@\S+\.\S+`, decided by a single-pass
    method proved equivalent to the pattern's existential reading.
- **Customer dashboard** (`CustomerDashboard`, `NewBookingModal`, `WalletModal`):
  - the seeded or stored bookings and balance;
  - the active/history split;
  - the three-step booking wizard as a state machine with a reachability invariant;
  - the `TMS<nnn>` id;
  - prepending a new booking;
  - wallet top-up validation.
- **Driver and owner dashboards** (`DriverDashboard`, `OwnerDashboard`):
  - per-driver and per-owner views;
  - the status changes a driver can make;
  - per-owner storage keys that never collide.
- **Status badges** (`DataTable`): the priority-ordered, case-insensitive substring classifier,
  and how a cell and an empty table render.

Shared modules: `Optional` (the `Option` type), `Text` (trim, ASCII lower-casing, substring
search, decimal rendering and padding), `Collections` (`filter`, `find`, `findIndex`, a selective
`map`, `slice`), `Entities` (the records) and `Storage` (the key/value store).

Modelling choices:
- **Store.** Local storage is a `map<string, Blob>`. A blob is one variant per kind of value
  stored. A key holding the wrong kind of value reads as absent, exactly like a missing key. The
  app never writes such a value.
- **Records.** Keys a JavaScript object may lack are `Option` fields: a user's `password` and
  `verified`, and a booking's `weight`, `driver`, `driverId`, `ownerId` and so on. Object
  spreads are written out field by field.
- **Randomness and time.** `Math.random()` is a `real` parameter in [0, 1). `Date.now()` is a
  `nat` parameter. `toLocaleString` on the fare is a function parameter. `parseFloat` is its
  result, an `Option<real>`. Digit strings are parsed exactly.
- **Lower-casing.** `toLowerCase` is modelled on ASCII letters only.
- **Behaviour of the code worth noting:**
  - Booking ids are not unique. The id is `TMS` plus one draw in 0..1000, and nothing checks it
    against the stored list.
  - A new booking is never visible to any driver or owner, because it gets no `driverId` or
    `ownerId` (`DriverDashboard.NewBookingNeverAssigned`).
  - Login ignores the `verified` flag entirely (`LoginPage.LoginIgnoresVerified`).
  - "Inactive" classifies as green, because it contains "active" (`DataTable.InactiveIsGreen`).
  - The admin-delete guard looks only at the first record with the id. When ids repeat, it can
    remove an admin (`UserManagement.DuplicateIdDeletesAdmin`).
  - With repeated booking ids, "Start Trip" can put someone else's delivered booking back in
    transit (`DriverDashboard.DuplicateIdReopensDelivery`).

## Model

| member | source | states |
|---|---|---|
| App.SeedAdmin | src/App.jsx:28-40 | when no stored account has the admin email, the admin record is appended and nothing else changes; otherwise the store is untouched |
| App.Start | src/App.jsx:23-43 | a stored session is restored without touching the store; with none, the session is empty and the admin is seeded |
| App.SeededHasAdmin | src/App.jsx:29-40 | after seeding, some stored account has the admin email |
| App.SeedIdempotent | src/App.jsx:30-39 | seeding twice is the same as seeding once |
| App.StartIdempotent | src/App.jsx:23-43 | booting again on the store a boot produced changes nothing |
| App.SignUp | src/App.jsx:55-58 | the account list grows by one and keeps its prefix; the new record carries the form's fields and id `user-<now>`; it is unverified exactly when the role is not customer; other keys are unchanged |
| App.Login | src/App.jsx:45-47 | the session is the user and the stored session record is that user; nothing else changes |
| App.Logout | src/App.jsx:67-69 | the session is empty and the session key is removed; nothing else changes |
| App.LoginThenStart | src/App.jsx:23-47 | a reload after login restores exactly the logged-in user and leaves the store untouched |
| App.LogoutThenStart | src/App.jsx:67-69 | a reload after logout starts with no session |
| App.RenderDashboard | src/App.jsx:84-102 | the login screen shows exactly when there is no session or the role is not one of the five; otherwise the dashboard of the session's role |
| App.SignUpThenLogin | src/App.jsx:55-58 | a fresh sign-up whose credentials match no stored record can then log in as exactly the new record, with verified set by role, and lands on that role's dashboard |
| LoginPage.HandleLogin | src/components/auth/LoginPage.jsx:21-47 | guards fire in order: role, then credentials, then the super-admin triple; otherwise the first stored record matching all three fields logs in, and login fails exactly when none matches |
| LoginPage.SuperAdminAlwaysLogsIn | src/components/auth/LoginPage.jsx:33-37 | the hard-coded admin credentials log in whatever the stored accounts are |
| LoginPage.LoginIgnoresVerified | src/components/auth/LoginPage.jsx:39-43 | two account lists that differ only in `verified` give the same login outcome, up to that flag |
| SignUpPage.HandleSubmit | src/components/auth/SignUpPage.jsx:30-44 | rejected exactly when a field is empty; otherwise the record copies the form, and verified is true exactly for customers |
| SignUpPage.InitialFormRejected | src/components/auth/SignUpPage.jsx:13-18 | the untouched form is rejected |
| AddEditUserModal.Prefill | src/components/admin/AddEditUserModal.jsx:27-39 | editing copies name, email and role (customer when missing) and blanks the password; adding gives the empty customer form |
| UserManagement.UntouchedEditRoundTrip | src/components/admin/AddEditUserModal.jsx:27-39 | opening the form on a user and saving it untouched gives the user back, except that a missing role becomes customer |
| AddEditUserModal.TestEmailPattern | src/components/admin/AddEditUserModal.jsx:46 | the single-pass test accepts exactly the strings the pattern `\S+@\S+\.\S+` matches somewhere |
| AddEditUserModal.ValidateForm | src/components/admin/AddEditUserModal.jsx:41-56 | no message exactly when the form is acceptable; the error map equals the rule-by-rule expectation, each field getting the message of its first failing rule; the password has no message exactly when it is blank while editing or has six or more characters |
| AddEditUserModal.HandleSubmit | src/components/admin/AddEditUserModal.jsx:58-73 | saves exactly acceptable forms, dropping an empty password; otherwise reports the rule-by-rule error map, which has at least one message |
| UserManagement.Merge | src/components/admin/UserManagement.jsx:36 | the merged record keeps id and verified, takes name, email and role, and keeps the stored password when the form has none |
| UserManagement.SaveUser | src/components/admin/UserManagement.jsx:33-44 | editing merges exactly the records with the edited id and keeps the length; adding appends one verified record with id `user-<now>` |
| UserManagement.BlankPasswordEditKeepsPasswords | src/components/admin/UserManagement.jsx:35-36 | an edit without a password leaves every stored password as it was |
| UserManagement.DeleteUser | src/components/admin/UserManagement.jsx:54-64 | nothing happens without a pending id; forbidden exactly when the first record with the id is an admin; otherwise exactly the records with the id are removed, the list shrinks, the survivors keep their order and every other record keeps its number of copies |
| UserManagement.DeleteKeepsAdmins | src/components/admin/UserManagement.jsx:56-62 | with unique ids, a deletion never removes an admin |
| UserManagement.DuplicateIdDeletesAdmin | src/components/admin/UserManagement.jsx:56-62 | with a repeated id, the guard passes on a driver record and the admin sharing its id is removed too |
| UserManagement.FilteredUsers | src/components/admin/UserManagement.jsx:70-74 | exactly the users whose lower-cased name, email or role contains the lower-cased term, in list order and with every matching record's number of copies; the empty term keeps everyone |
| UserManagement.SearchCaseInsensitive | src/components/admin/UserManagement.jsx:70-74 | a term and its lower-cased form find the same users |
| AdminHome.PendingApprovals | src/components/admin/AdminHome.jsx:21 | exactly the users whose flag is false; a missing flag is not pending |
| AdminHome.PendingInOrder | src/components/admin/AdminHome.jsx:21 | the queue is a subsequence of the users and holds every pending record as often as it is stored |
| AdminHome.HandleApproval | src/components/admin/AdminHome.jsx:30-39 | records with the id get the decision as their flag; every other record and field is unchanged |
| AdminHome.ApprovalPendingCount | src/components/admin/AdminHome.jsx:21-36 | with unique ids, approving a pending user removes exactly one entry from the queue |
| AdminHome.RejectKeepsPending | src/components/admin/AdminHome.jsx:30-36 | a rejected user stays in the pending queue |
| AdminHome.RecentBookings | src/components/admin/AdminHome.jsx:71 | the first five bookings, or all when fewer |
| AdminHome.PendingShown | src/components/admin/AdminHome.jsx:89 | the first three pending users, or all when fewer |
| DataTable.StatusTone | src/components/shared/DataTable.jsx:13-25 | green if the lower-cased status contains active, delivered or verified; else yellow for transit or pending; else red for maintenance, cancelled or rejected; else gray; a missing status is gray |
| DataTable.ContainsAnyCases | src/components/shared/DataTable.jsx:15-21 | each colour's word list matches exactly when one of its words occurs |
| DataTable.StatusToneCaseInsensitive | src/components/shared/DataTable.jsx:14 | statuses equal up to case get the same colour |
| DataTable.StatusToneIgnoresCase | src/components/shared/DataTable.jsx:14 | lower-casing a status first does not change its colour |
| DataTable.StatusText | src/components/shared/DataTable.jsx:30 | a boolean reads Verified or Pending; a string is itself; a missing value has no text |
| DataTable.RenderCell | src/components/shared/DataTable.jsx:27-57 | status and verified columns render a badge coloured from the cell's text; an actions column with actions renders the menu; any other cell shows its raw value |
| DataTable.RenderBody | src/components/shared/DataTable.jsx:75-96 | an empty table is one placeholder row spanning every column; otherwise one row per record, one cell per column |
| DataTable.VerifiedBadge | src/components/shared/DataTable.jsx:29-35 | a user's verified cell is a green Verified or yellow Pending badge by flag, or gray when the flag is missing |
| DataTable.NotContainsPending | src/components/shared/DataTable.jsx:15-20 | "pending" contains none of the green words |
| DataTable.BookingStatusTones | src/components/shared/DataTable.jsx:13-25 | Pending and In Transit are yellow, Delivered green, Cancelled red |
| DataTable.InactiveIsGreen | src/components/shared/DataTable.jsx:15 | the status "Inactive" is classified green |
| NewBookingModal.FareFromRandom | src/components/customer/NewBookingModal.jsx:32 | every draw gives a fare between 5000 and 25000 |
| NewBookingModal.Change | src/components/customer/NewBookingModal.jsx:45-48 | exactly the named field takes the value; step and fare are kept |
| NewBookingModal.Next | src/components/customer/NewBookingModal.jsx:20-36 | step 1 advances only with route filled in; step 2 only with cargo and weight, and then the fare lies in [5000, 25000]; a refused step changes nothing |
| NewBookingModal.Back | src/components/customer/NewBookingModal.jsx:38 | one step back, details and fare kept |
| NewBookingModal.Confirm | src/components/customer/NewBookingModal.jsx:40-43 | the request carries the four details and the amount `₹` plus the formatted fare |
| NewBookingModal.InitialInv | src/components/customer/NewBookingModal.jsx:10-17 | the opened wizard satisfies the reachability invariant |
| NewBookingModal.StepKeepsInv | src/components/customer/NewBookingModal.jsx:20-38 | every event the rendered step offers keeps the invariant; the step stays within 1..3 |
| NewBookingModal.RunKeepsInv | src/components/customer/NewBookingModal.jsx:61-125 | any sequence of offered events keeps the invariant |
| NewBookingModal.ConfirmedRequestComplete | src/components/customer/NewBookingModal.jsx:20-43 | whatever the user did, a confirmed request has non-empty route and cargo fields and a fare in [5000, 25000] |
| WalletModal.HandleAdd | src/components/customer/WalletModal.jsx:13-21 | refused exactly when the parse fails or the number is not positive; a positive number is passed on unchanged |
| WalletModal.PresetsAccepted | src/components/customer/WalletModal.jsx:44-45 | each preset button's text parses back to the preset and is accepted |
| CustomerDashboard.InitialBookings | src/components/dashboards/CustomerDashboard.jsx:28-35 | the stored list, or the three seed bookings when none is stored |
| CustomerDashboard.InitialBalance | src/components/dashboards/CustomerDashboard.jsx:37-40 | the stored balance, or 5000 |
| CustomerDashboard.Persist | src/components/dashboards/CustomerDashboard.jsx:48-54 | the store then holds exactly the given bookings and balance; no other key changes |
| CustomerDashboard.PersistRoundTrip | src/components/dashboards/CustomerDashboard.jsx:28-54 | remounting on the persisted store restores the same bookings and balance |
| CustomerDashboard.ActiveBookings | src/components/dashboards/CustomerDashboard.jsx:56 | exactly the bookings in transit or pending |
| CustomerDashboard.BookingHistory | src/components/dashboards/CustomerDashboard.jsx:57 | exactly the bookings delivered or cancelled |
| CustomerDashboard.ViewsInOrder | src/components/dashboards/CustomerDashboard.jsx:56-57 | both views are subsequences of the list and hold every booking they select as often as it is stored |
| CustomerDashboard.ActiveHistoryPartition | src/components/dashboards/CustomerDashboard.jsx:56-57 | the views are disjoint; a booking is in one of them exactly when its status is one of the four known ones |
| CustomerDashboard.IdDraw | src/components/dashboards/CustomerDashboard.jsx:69 | rounding the scaled draw gives a number in 0..1000 |
| CustomerDashboard.BookingId | src/components/dashboards/CustomerDashboard.jsx:69 | `TMS` then digits whose value is the draw: six characters, seven for the draw 1000 |
| CustomerDashboard.PaddedDecimal | src/components/dashboards/CustomerDashboard.jsx:69 | zero-padding the draw to three places keeps its value, with four digits only for 1000 |
| CustomerDashboard.BookingIdInjective | src/components/dashboards/CustomerDashboard.jsx:69 | two draws give the same id exactly when they are equal |
| CustomerDashboard.NewBooking | src/components/dashboards/CustomerDashboard.jsx:66-74 | the request's fields, status Pending, driver and vehicle "Assigning...", delivery "TBD", no date, route, driver or owner id; the id is `TMS` followed by digits whose value is the draw |
| CustomerDashboard.HandleNewBooking | src/components/dashboards/CustomerDashboard.jsx:75 | the new booking is first and the old list follows unchanged |
| CustomerDashboard.NewBookingIsActive | src/components/dashboards/CustomerDashboard.jsx:56-75 | the new booking heads the active view; the history view is unchanged |
| CustomerDashboard.CountStats | src/components/dashboards/CustomerDashboard.jsx:59-61 | total is the list length; active shipments is the active view's size, never above the total |
| CustomerDashboard.AddMoney | src/components/dashboards/CustomerDashboard.jsx:87-88 | the balance rises by exactly the amount |
| CustomerDashboard.TopUp | src/components/dashboards/CustomerDashboard.jsx:87-88 | a positive parsed amount is added exactly; anything else leaves the balance; it never decreases |
| CustomerDashboard.CardTone | src/components/dashboards/CustomerDashboard.jsx:102-109 | blue, green and yellow exactly for In Transit, Delivered and Pending; gray otherwise |
| CustomerDashboard.SeedSplit | src/components/dashboards/CustomerDashboard.jsx:30-34 | the seed list shows one active booking and two in history |
| DriverDashboard.InitialBookings | src/components/dashboards/DriverDashboard.jsx:11 | the stored list, or empty |
| DriverDashboard.DriverTrips | src/components/dashboards/DriverDashboard.jsx:13 | exactly the bookings whose driver id is the user's |
| DriverDashboard.DriverTripsInOrder | src/components/dashboards/DriverDashboard.jsx:13 | the trips are a subsequence of the list and hold every booking of the driver as often as it is stored |
| DriverDashboard.CurrentTrip | src/components/dashboards/DriverDashboard.jsx:14 | none exactly when no trip of the driver is in transit; otherwise the first one that is |
| DriverDashboard.UpcomingTrips | src/components/dashboards/DriverDashboard.jsx:15 | exactly the driver's pending trips |
| DriverDashboard.UpcomingInOrder | src/components/dashboards/DriverDashboard.jsx:13-15 | the upcoming trips are a subsequence of the list and hold every pending booking of the driver as often as it is stored |
| DriverDashboard.CountStats | src/components/dashboards/DriverDashboard.jsx:17-20 | the counts of the driver's delivered and pending trips, together at most the driver's trips |
| DriverDashboard.TripAction | src/components/dashboards/DriverDashboard.jsx:24-30 | bookings with the id take the new status; every other field and booking and the length are unchanged |
| DriverDashboard.HandleTripAction | src/components/dashboards/DriverDashboard.jsx:24-32 | the stored list is the updated list; no other key changes |
| DriverDashboard.TripActionPersists | src/components/dashboards/DriverDashboard.jsx:11-32 | reopening the page after an action shows the updated list |
| DriverDashboard.TripActionIdempotent | src/components/dashboards/DriverDashboard.jsx:25-30 | repeating an action changes nothing further |
| DriverDashboard.TripActionUnknownId | src/components/dashboards/DriverDashboard.jsx:25-30 | an id no booking has leaves the list as it was |
| DriverDashboard.PressMovesOneTripForward | src/components/dashboards/DriverDashboard.jsx:92-112 | with unique ids, Start Trip moves exactly one of the driver's bookings from Pending to In Transit and Mark Delivered one from In Transit to Delivered; nothing else changes |
| DriverDashboard.DuplicateIdReopensDelivery | src/components/dashboards/DriverDashboard.jsx:24-30 | with a repeated id, Start Trip puts another driver's delivered booking back in transit |
| DriverDashboard.NewBookingNeverAssigned | src/components/dashboards/DriverDashboard.jsx:13 | creating a booking on the customer dashboard leaves every driver's trips unchanged |
| OwnerDashboard.Mount | src/components/dashboards/OwnerDashboard.jsx:12-14 | vehicles and drivers are what the owner's own keys hold, bookings what the shared key holds, each empty when absent |
| OwnerDashboard.PersistFleet | src/components/dashboards/OwnerDashboard.jsx:16-22 | the owner's two keys hold the collections; no other key changes |
| OwnerDashboard.MountPersistStable | src/components/dashboards/OwnerDashboard.jsx:12-22 | writing back what was mounted and mounting again gives the same page |
| OwnerDashboard.OwnersIsolated | src/components/dashboards/OwnerDashboard.jsx:12-22 | one owner's writes never change another owner's collections, the bookings, the accounts or the session |
| OwnerDashboard.OwnerBookings | src/components/dashboards/OwnerDashboard.jsx:24 | exactly the bookings whose owner id is the user's |
| OwnerDashboard.OwnerBookingsInOrder | src/components/dashboards/OwnerDashboard.jsx:24 | the owner's bookings are a subsequence of the list and hold every booking of the owner as often as it is stored |
| OwnerDashboard.CountStats | src/components/dashboards/OwnerDashboard.jsx:26-31 | vehicle and driver counts are the collection lengths; active trips counts the owner's bookings in transit |
| OwnerDashboard.TripActionElsewhere | src/components/dashboards/OwnerDashboard.jsx:24-30 | a driver's trip action (the status update of DriverDashboard.jsx:24-30) on an id none of the owner's bookings has leaves the owner's bookings, and so the active-trip card, unchanged |
| OwnerDashboard.TripActionKeepsOwnership | src/components/dashboards/OwnerDashboard.jsx:24 | a status change never moves a booking between owners |
| Storage.OwnerKeysSeparate | src/components/dashboards/OwnerDashboard.jsx:12-13 | per-owner keys coincide only for the same owner, vehicle and driver keys never coincide, and neither is a fixed key |
| Entities.NewUserIdInjective | src/App.jsx:57 | ids issued at different instants differ |
| Text.TrimEmptyIffBlank | src/components/admin/AddEditUserModal.jsx:43-44 | a trimmed string is empty exactly when the string is all whitespace |

## Left out

- Rendering, animation, toasts, routing and navigation: they produce no state. The dashboard
  choice is modelled as a `Screen` value.
- A corrupt JSON value makes `JSON.parse` throw; here every stored value is well-formed.
- Integer widths, floating point and UTF-16: amounts and balances are reals and lengths count
  characters. The balance's round trip through a string is taken as exact.
- Locale formatting: `toLocaleString` is a function parameter.
- The sums from amount strings: revenue, total spent and the 10% driver earnings strip
  currency text with a regular expression and sum floats.
- Files not part of this model: `HomePage`, `VendorDashboard`, `AdminDashboard`,
  `TrackShipmentModal`, `BookingHistoryModal` and `StatsCard`. They hold static data, timers
  and display-only markup.
- Add Vehicle, Add Driver, Settings, Track All and a vehicle row click on the owner's dashboard
  only show a "coming soon" toast; nothing in the page changes the vehicle or driver
  collections.
- The user-list handlers (`AdminHome.HandleApproval`, `UserManagement.SaveUser`,
  `UserManagement.DeleteUser`) return the new list; the write to `tms_users` that follows each
  of them is `Storage.SaveUsers` of that list and is not repeated in their contracts.
- Concurrency between tabs sharing storage.
- WalletModal.HandleAdd: `parseFloat`'s prefix-lenient parsing is not modelled; the handler
  receives its result. Only digit strings are parsed exactly (`ParseDigits`).
- DataTable.StatusTone: `toLowerCase` lowers ASCII letters only; other scripts keep their case.
- UserManagement.DeleteUser: a pending id that no record has makes the source throw on the
  missing record. The model requires the record to exist (`DeletableId`).
- NewBookingModal.Next: states the range of the fare drawn on leaving step 2, not which fare a
  given draw yields. `FareFromRandom` fixes the formula.
- CustomerDashboard.NewBooking: the source's fixed fields override same-named fields of the
  request. The typed request has no such fields, so the override is not stated.
- The sign-up form's own random id is replaced by `user-<now>` when the account is stored. Only
  the stored id is stated (`App.SignUp`).
