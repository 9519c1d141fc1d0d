# Hotel business logic: a verified model

This project models the business logic of a small hotel web application: the
user roles and the per-handler role gates, the redirect after login, the
login and registration form checks, the client discount rule and the
discounted service list, the manager pages (client list, dashboard, service
list, room list with its bed and category filters), and the service assignment
workflow. That workflow finds a client's booking covering today and then
creates a service provision for (booking, service, day), or adds the requested
quantity to the one that already exists.

The tables are sequences of value records. The caller, today's date and the
caller's discount are explicit parameters. Money and discounts are exact
`real` numbers, and days are integer day numbers.

Modules, leaves first:

- `Common` (common.dfy): `Option`, `Result`, order-preserving `Filter` and `FirstIndex` over a table.
- `Models` (models.dfy): the entities of hotel/models.py, `UserRole`, the field defaults and the discount rule.
- `Forms` (forms.dfy): the error lists of the login and registration forms.
- `Access` (access.dfy): the role gate, the login redirect and the login handler.
- `Bookings` (bookings.dfy): the active-booking predicate, the dashboard count and the lookup of a guest's active booking.
- `Provisions` (provisions.dfy): the provision table and its create-or-merge write.
- `Assign` (assign.dfy): the lookups of the assignment handler, and that handler as written.
- `Views` (views.dfy): the handlers that only read.
- `Hotel` (hotel.dfy): the class `Hotel` that holds the tables, with the two handlers that write (`RegisterView`, `AddService`).

`.first()` on a query with no ordering takes the row with the lowest primary
key. The model takes the first matching row in sequence order, and table order
stands for primary-key order. For bookings this is part of the `Hotel`
invariant (`IdsAscending`), and `Bookings.FindActiveBookingLowestId` shows that
the chosen booking has the lowest id among the guest's covering bookings. For
provisions the order does not matter, because the table keeps at most one row
per key.

The add_service handler's intended logic is modelled: it looks the guest up by
the posted `guest_id` and filters bookings by that guest. The handler as
written is modelled separately (see Findings). The active booking is the one
covering *today*, as in the code (hotel/views.py:234-238), not the one covering
the posted service day.

## Model

| member | source | states |
|---|---|---|
| Models.ParseRole | hotel_business/hotel/models.py:24-28 | a stored role text maps back to the role with that value, and a text that is no role's value maps to none |
| Models.RolesAreFourDistinctValues | hotel_business/hotel/models.py:24-28 | there are exactly four roles (guest, client, manager, admin), their stored values are pairwise distinct, and each value parses back to its role |
| Models.PriceWithDiscount | hotel_business/hotel/models.py:44-48 | a discount ≤ 0 leaves the price unchanged; a positive discount d gives price·(100−d)/100 |
| Models.DiscountedPriceBounds | hotel_business/hotel/models.py:44-48 | for price ≥ 0 and discount in [0,100] the result lies in [0, price], and a discount of 100 gives 0 |
| Models.DiscountIsMonotone | hotel_business/hotel/models.py:47-48 | for a fixed price ≥ 0, a larger discount never gives a larger price |
| Models.DiscountAboveHundredIsNegative | hotel_business/hotel/models.py:47-48 | the discount is not clamped: above 100 a positive price becomes negative |
| Models.TenPercentOffHundred | hotel_business/hotel/models.py:44-48 | a 10 percent discount on 100.00 gives 90.00 |
| Models.FreshUserPaysFullPrice | hotel_business/hotel/models.py:35-46 | a new user has role guest and discount 0, and so pays the full price |
| Access.Authorize | hotel_business/hotel/views.py:90-94 | an anonymous caller goes to login; a signed-in caller is admitted iff their role is in the handler's allow-list, and denied otherwise |
| Access.ManagerAreaAdmits | hotel_business/hotel/views.py:145-147 | the manager gate admits a user iff their role is admin or manager, and every other role gets "access denied" |
| Access.ClientAreaAdmits | hotel_business/hotel/views.py:100-102 | the client gate admits every role except guest |
| Access.AdminPassesEveryGate | hotel_business/hotel/views.py:92-102 | an admin passes both gates, a client never passes the manager gate, and the manager allow-list is contained in the client allow-list |
| Access.LoginRedirect | hotel_business/hotel/views.py:32-39 | admin goes to 'admin', manager to 'manager', and client or guest to 'services_list', each iff that role |
| Access.LoginView | hotel_business/hotel/views.py:10-43 | the form errors are shown iff a field is blank, with exactly the blank fields and no other error, in order; "invalid credentials" iff both fields are given and authentication fails; otherwise the authenticated user is redirected by role |
| Forms.MessagesIdentifyErrors | hotel_business/hotel/views.py:114-122 | the four error messages are pairwise distinct, so a shown message identifies its check |
| Forms.LoginErrors | hotel_business/hotel/views.py:16-20 | the error list holds "email required" iff the email is blank and "password required" iff the password is blank, in that order |
| Forms.InOrderDeterminesList | hotel_business/hotel/views.py:114-122 | two ordered error lists with the same members are equal, so the set of failing checks fixes the reported list |
| Forms.AcceptableIffNoCheckFails | hotel_business/hotel/views.py:114-124 | a registration form is acceptable iff none of the four checks fails |
| Forms.RegistrationErrors | hotel_business/hotel/views.py:114-122 | each of the four checks runs independently; the list holds exactly the failing checks, in check order, and is empty iff the form is acceptable |
| Hotel.Hotel.RegisterView | hotel_business/hotel/views.py:106-141 | the errors are reported iff the form is unacceptable; otherwise exactly one user, always with role client, is appended unless creation raises; the unique-email and unique-id invariants are kept |
| Bookings.ActiveBookingsCoverToday | hotel_business/hotel/views.py:152-155 | the active bookings are exactly the stored ones with check-in ≤ today ≤ check-out, and their count is the number of such rows |
| Bookings.BoundaryDaysAreActive | hotel_business/hotel/views.py:235-238 | a booking is active on its check-in and check-out days and inactive on the days just outside them |
| Bookings.FindActiveBooking | hotel_business/hotel/views.py:235-239 | the result is one of the guest's bookings covering today; there is none iff no booking of the guest covers today |
| Bookings.FindActiveBookingTakesFirst | hotel_business/hotel/views.py:235-239 | when several of the guest's bookings cover today, the first in table order is chosen |
| Hotel.FindServiceIsTheRowWithId | hotel_business/hotel/views.py:231 | with service ids unique (part of the `Hotel` invariant), the lookup by id returns exactly the stored service with that id |
| Bookings.FindActiveBookingLowestId | hotel_business/hotel/views.py:235-239 | with the rows in primary-key order, a covering booking is always found for a guest who has one, and the chosen booking has the lowest id among them |
| Provisions.FindProvision | hotel_business/hotel/views.py:245-249 | the result is a row position with the requested (booking, service, day) key, and there is none iff no row has that key |
| Provisions.Upsert | hotel_business/hotel/views.py:245-261 | after the write, the table has a row for the key |
| Provisions.UpsertMergesExisting | hotel_business/hotel/views.py:251-253 | if the key has a row, that row's quantity grows by exactly the request and nothing else changes |
| Provisions.UpsertAppendsNew | hotel_business/hotel/views.py:255-261 | if the key has no row, exactly one row with the requested quantity is appended and the old rows stay as they were |
| Provisions.UpsertKeepsKeysUnique | hotel_business/hotel/views.py:245-261 | the write keeps the invariant of at most one row per key |
| Provisions.UpsertLeavesOtherKeys | hotel_business/hotel/views.py:245-261 | rows with other keys are unchanged, no row's key changes, and the table grows by at most one row |
| Provisions.UpsertTwiceMerges | hotel_business/hotel/views.py:245-261 | assigning q1 and then q2 to one key gives the same table as assigning q1+q2 once |
| Provisions.UpsertAddsToTotal | hotel_business/hotel/views.py:251-261 | the total quantity recorded for the key rises by exactly the request, and every other key's total is unchanged |
| Assign.FindClient | hotel_business/hotel/views.py:230 | the result is a user with the posted id and role client; there is none iff no user with that id is a client |
| Assign.FindService | hotel_business/hotel/views.py:231 | the result is a service with the posted id, active or not; there is none iff no service has that id |
| Assign.Resolve | hotel_business/hotel/views.py:222-249 | a malformed quantity fails first, then a missing client, then a missing service, then the lack of a booking covering today, each iff the earlier checks pass; the lookup succeeds iff every check passes and the day is given; on success the guest is that client, the booking is their first booking covering today, and an absent quantity counts as 1 |
| Assign.NoBookingMeansNoAssignment | hotel_business/hotel/views.py:234-243 | a guest with no booking covering today cannot be assigned anything, and once the guest and service are found the error is "no active booking" |
| Assign.SingleActiveBookingIsChosen | hotel_business/hotel/views.py:235-239 | a guest with exactly one booking covering today has services assigned to that booking |
| Hotel.Hotel.AddService | hotel_business/hotel/views.py:216-263 | a denied or anonymous caller changes nothing; a failed lookup reports its error and changes nothing; otherwise the table becomes `Upsert` of the old table, the outcome is "merged" iff the key had a row, and the table invariants are kept |
| Hotel.AssignTwiceScenario | hotel_business/hotel/views.py:245-262 | assigning one spa visit twice to a client whose booking covers the day gives a single row with quantity 2 |
| Assign.AddServiceAsWritten | hotel_business/hotel/views.py:222-266 | as written, an admitted posted form always ends in a caught error, and no provision is ever created or merged |
| Assign.AsWrittenRejectsValidAssignment | hotel_business/hotel/views.py:230 | for a client with a booking covering today, the intended lookup succeeds where the handler as written reports an error |
| Hotel.Hotel.AddServiceReportAsWritten | hotel_business/hotel/views.py:245-266 | with the guest lookup corrected but the message step as written: past the gate and the lookups the table becomes exactly the create-or-merge write of the old one, and yet the outcome is always the caught missing-`full_name` error; nothing is ever reported as created or merged |
| Hotel.WrittenRowReportedAsError | hotel_business/hotel/views.py:254-262 | for a client staying from day 10 to day 14, a first spa visit assigned on day 11 writes the row (booking 3, service 7, quantity 1, day 12) and the handler as written reports an error |
| Views.DiscountedPriceFacts | hotel_business/hotel/models.py:44-48 | the discounted price lies in [0, price] for the ordinary ranges, and on a positive price any positive discount lowers it strictly |
| Views.DiscountRowFor | hotel_business/hotel/views.py:57-66 | a client's price line keeps the list price, shows the user's discounted price of the service cost, flags a discount iff the discount is > 0, and in the ordinary ranges is strictly cheaper exactly when it is flagged |
| Views.UserDataFor | hotel_business/hotel/views.py:67-82 | has_discount iff discount > 0; discount_more_than_10 iff discount > 10 strictly; is_guest iff anonymous or role guest; anonymous callers get discount 0 |
| Views.ServicesList | hotel_business/hotel/views.py:52-88 | the list shows the active services, each stored row exactly once (no row is added or repeated); only a signed-in client gets discount rows, one per listed service in order; everyone else gets none |
| Views.Clients | hotel_business/hotel/views.py:95 | the client list holds exactly the users whose role is client, and its length is the number of such rows |
| Views.ClientPage | hotel_business/hotel/views.py:98-103 | an anonymous caller goes to login, a guest is denied (iff), and the page is shown iff the caller is admin, manager or client |
| Views.ManagerClients | hotel_business/hotel/views.py:164-171 | anonymous callers go to login, other roles are denied, only admins and managers see the list, and it holds exactly the clients, with no row repeated beyond the table |
| Views.ManagerDashboard | hotel_business/hotel/views.py:143-162 | anonymous callers go to login, other roles are denied, only admins and managers see it; it counts the clients, services and rooms, and the bookings with check-in ≤ today ≤ check-out |
| Views.ManagerServices | hotel_business/hotel/views.py:173-186 | anonymous callers go to login, other roles are denied, only admins and managers see it; an empty search lists every service, and otherwise it lists exactly those whose name matches the search, with no row repeated beyond the table |
| Views.ParseIntRoundTrip | hotel_business/hotel/views.py:203 | every whole number, written out, parses back to itself when compared with an integer column |
| Views.FilterRooms | hotel_business/hotel/views.py:199-206 | bed filter "4" keeps rooms with ≥ 4 beds, any other non-empty filter keeps rooms with exactly that count, and an empty filter keeps all; the category filter keeps rooms of that category; no room is listed more often than it is stored; a non-numeric filter is an error |
| Views.OnlyFourItselfMeansFourOrMore | hotel_business/hotel/views.py:200-203 | only the exact text "4" means "four or more"; "04" and "+4" mean exactly four |
| Views.ManagerRooms | hotel_business/hotel/views.py:188-212 | the intended room page: login for anonymous callers, denial outside the manager gate, an error for a non-numeric filter, and otherwise the filtered rooms and all categories |
| Views.ManagerRoomsAsWritten | hotel_business/hotel/views.py:208-214 | as written, every admitted request fails on the undefined `bed_counts` |
| Views.RoomsAsWrittenAlwaysFails | hotel_business/hotel/views.py:213 | an admin asking for the unfiltered rooms gets every room from the intended handler and an error from the handler as written |
| Views.DeniedManagerPagesReadNothing | hotel_business/hotel/views.py:166-192 | a caller turned away by the manager gate gets the same outcome whatever the tables hold |

## Left out

- hotel_business/hotel_business/urls.py is a routing table with no logic. It registers the route name 'login' twice (lines 7-8).
- Template rendering, flash messages, `redirect`/`render` and the HTTP method dispatch are left out. Handlers return outcome datatypes, and the model covers the POST branch of each form handler.
- `authenticate`, `login`, `logout`, `logout_view`, sessions, password hashing and `create_user` internals belong to the framework, or to the account manager, which is not part of this model. Authentication is the parameter `authenticated` of `LoginView`. A failing `create_user` is the parameter `createRaises` of `RegisterView`.
- The ORM is replaced by sequences. `get_object_or_404` becomes a lookup that can fail. The `Hotel` invariant keeps user ids and service ids unique, so the `MultipleObjectsReturned` error of a duplicate id cannot arise and is not modelled (`Hotel.FindServiceIsTheRowWithId`).
- Hotel.NextUserId stands in for the database's key sequence: it gives a key above every stored one.
- The `icontains` search of manager_services depends on database and Unicode case folding. It is the parameter `nameMatches`.
- `timezone.now()` is the parameter `today`.
- The read-then-write race in add_service is out of scope because the model is sequential.
- Decimal column precision, two-decimal rounding and the `float(...)` conversion of the discount (views.py:70) are not modelled: prices and discounts are exact reals.
- Parsing of posted values is not modelled in detail:
  - The quantity is absent, a number, or malformed.
  - A malformed or absent id or service day is `None`.
  - The registration form's `full_name` and `phone_number` are plain strings. An absent field (`None` from `request.POST.get`, views.py:111-112) would make `create_user` fail on the non-null column; the model reaches that outcome only through the parameter `createRaises`.
  - `ParseInt` accepts an optional sign followed by ASCII digits. Python's `int()` also accepts surrounding whitespace, underscores between digits and non-ASCII digits, and these forms are not modelled.
- The quantity column is a database integer field. A quantity outside the database's integer range fails on save, and the error is caught, so nothing is written. The model writes any whole number.
- The source does not check that a quantity is positive, and neither does the model. A negative quantity lowers a merged row's quantity.
- The discount is not clamped to [0,100], and the source does not enforce that range either (`DiscountAboveHundredIsNegative`).
- `paid_amount ≤ total_cost` and whether a guest's bookings may overlap are not enforced by the source and are not assumed here.
- Item and Equipment are used only through a prefetch for the room template, so they are not modelled.
- The text of the add_service messages is left out. Errors are the datatype `AssignError`.

## Findings

| source | as written | input that shows it | evidently intended | confidence | as-written member | corrected member |
|---|---|---|---|---|---|---|
| hotel_business/hotel/views.py:230 | the guest is fetched with the undefined name `client_id`, and bookings are filtered by `guest=client`, which is the view function (line 236); every posted form raises, the catch-all at line 265 reports it, and nothing is written | a manager posts guest_id=2 and service_id=7 for a client whose booking covers today | look the guest up by `guest_id` and filter bookings by that guest | high; not executed | Assign.AddServiceAsWritten | Hotel.Hotel.AddService |
| hotel_business/hotel/views.py:254 | both success messages (lines 254 and 262) read `guest.full_name`, which users do not have; after the row is saved or created the AttributeError is caught at line 265, an error is reported, and the create branch never reaches its redirect | a manager assigns a first spa visit to a client whose booking covers today, with the guest lookup corrected | report success (for example with the guest's full name from `get_full_name()`) | high; not executed | Hotel.Hotel.AddServiceReportAsWritten | Hotel.Hotel.AddService |
| hotel_business/hotel/views.py:213 | the page context reads the undefined name `bed_counts`, so every admitted request to the room page fails | an admin opens the room page with no filters | render the filtered rooms and the categories | high; not executed | Views.ManagerRoomsAsWritten | Views.ManagerRooms |
