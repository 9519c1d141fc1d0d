/** The lookup half of assigning a service to a guest: reading the posted form,
    finding the guest and the service, and resolving the booking the guest is
    staying under today. The write half is `Provisions.Upsert`; the handler that
    joins the two is `Hotel.Hotel.AddService`.

    The handler as written (hotel/views.py:230 and 236) looks the guest up by an
    undefined name `client_id` and filters bookings by `guest=client`, where
    `client` is the client-page view function. The first of these raises on every
    posted form, the handler's catch-all turns the exception into an error message,
    and nothing is written: `AddServiceAsWritten` models that. `Resolve` models the
    evidently intended lookup, by the posted `guest_id`, with the bookings filtered
    by that guest. */
module Assign {
  import opened Common
  import opened Models
  import opened Bookings
  import opened Provisions
  import Access

  /** The posted quantity field: absent (the handler then assumes one), a number,
      or text that does not parse as a whole number. */
  datatype QuantityField = Absent | Number(n: int) | Malformed

  /** What the assignment form posts. An id or a day that is absent or malformed is
      `None`: such a value matches no row (for the ids) or makes the write fail (for
      the day). */
  datatype AssignRequest = AssignRequest(
    guestId: Option<int>,
    serviceId: Option<int>,
    serviceDate: Option<Date>,
    quantity: QuantityField)

  /** Why an assignment writes nothing, in the order the handler finds out. */
  datatype AssignError =
    | BadQuantity      // the quantity does not parse as a whole number
    | GuestNotFound    // no client with the posted id
    | ServiceNotFound  // no service with the posted id
    | NoActiveBooking  // the guest has no booking covering today
    | BadServiceDate   // the posted day is absent or malformed, so the lookup or the write fails
    | NameLookupFailed // the handler as written refers to a name that is not defined
    | AttributeMissing // the handler as written reads a user attribute that does not exist

  /** Everything the write needs once the lookups have succeeded. */
  datatype Assignment = Assignment(guest: User, service: Service, booking: Booking, serviceDate: Date, quantity: int)

  /** The provision key the assignment writes to. */
  function AssignmentKey(a: Assignment): Key
  {
    Key(a.booking.id, a.service.id, a.serviceDate)
  }

  /** The client with id `id`, if there is one. Users of other roles are not eligible. */
  function FindClient(users: seq<User>, id: int): (r: Option<User>)
    ensures r.Some? ==> r.value in users && r.value.id == id && r.value.role == Client
    ensures r.None? <==> forall u :: u in users && u.id == id ==> u.role != Client
  {
    match FirstIndex(users, (u: User) => u.id == id && u.role == Client)
    case None => None
    case Some(i) => Some(users[i])
  }

  /** The service with id `id`, if there is one, active or not. */
  function FindService(services: seq<Service>, id: int): (r: Option<Service>)
    ensures r.Some? ==> r.value in services && r.value.id == id
    ensures r.None? <==> forall s :: s in services ==> s.id != id
  {
    match FirstIndex(services, (s: Service) => s.id == id)
    case None => None
    case Some(i) => Some(services[i])
  }

  /** The lookups of the assignment handler, in its order: the quantity is parsed,
      the guest and the service are fetched, the guest's booking covering `today`
      is found, and the posted day is checked by the provision lookup. */
  function Resolve(users: seq<User>, services: seq<Service>, bookings: seq<Booking>, req: AssignRequest, today: Date)
    : (r: Result<Assignment, AssignError>)
    ensures r == Failure(BadQuantity) <==> req.quantity.Malformed?
    ensures r == Failure(GuestNotFound) <==>
      !req.quantity.Malformed? && (req.guestId.None? || FindClient(users, req.guestId.value).None?)
    ensures r == Failure(ServiceNotFound) <==>
      !req.quantity.Malformed? && req.guestId.Some? && FindClient(users, req.guestId.value).Some?
      && (req.serviceId.None? || FindService(services, req.serviceId.value).None?)
    ensures r == Failure(NoActiveBooking) ==>
      req.guestId.Some? && forall b :: b in bookings && b.guestId == req.guestId.value ==> !IsActiveOn(b, today)
    ensures r == Failure(NoActiveBooking) <==>
      !req.quantity.Malformed? && req.guestId.Some? && FindClient(users, req.guestId.value).Some?
      && req.serviceId.Some? && FindService(services, req.serviceId.value).Some?
      && FindActiveBooking(bookings, req.guestId.value, today).None?
    ensures r.Success? <==>
      !req.quantity.Malformed? && req.guestId.Some? && FindClient(users, req.guestId.value).Some?
      && req.serviceId.Some? && FindService(services, req.serviceId.value).Some?
      && FindActiveBooking(bookings, req.guestId.value, today).Some? && req.serviceDate.Some?
    ensures r.Failure? ==> r.error != NameLookupFailed && r.error != AttributeMissing
    ensures r.Success? ==>
      && r.value.booking == FindActiveBooking(bookings, req.guestId.value, today).value
      && req.guestId == Some(r.value.guest.id) && r.value.guest in users && r.value.guest.role == Client
      && req.serviceId == Some(r.value.service.id) && r.value.service in services
      && r.value.booking in bookings && r.value.booking.guestId == r.value.guest.id
      && IsActiveOn(r.value.booking, today)
      && req.serviceDate == Some(r.value.serviceDate)
      && r.value.quantity == (if req.quantity.Number? then req.quantity.n else 1)
  {
    if req.quantity.Malformed? then Failure(BadQuantity)
    else
      var quantity := if req.quantity.Number? then req.quantity.n else 1;
      if req.guestId.None? then Failure(GuestNotFound)
      else
        match FindClient(users, req.guestId.value)
        case None => Failure(GuestNotFound)
        case Some(guest) =>
          if req.serviceId.None? then Failure(ServiceNotFound)
          else
            match FindService(services, req.serviceId.value)
            case None => Failure(ServiceNotFound)
            case Some(service) =>
              match FindActiveBooking(bookings, guest.id, today)
              case None => Failure(NoActiveBooking)
              case Some(booking) =>
                if req.serviceDate.None? then Failure(BadServiceDate)
                else Success(Assignment(guest, service, booking, req.serviceDate.value, quantity))
  }

  /** A client whose bookings do not cover today cannot be assigned anything, whatever
      else the form says (provided it gets that far). */
  lemma NoBookingMeansNoAssignment(users: seq<User>, services: seq<Service>, bookings: seq<Booking>, req: AssignRequest, today: Date)
    requires req.guestId.Some?
    requires forall b :: b in bookings && b.guestId == req.guestId.value ==> !IsActiveOn(b, today)
    ensures Resolve(users, services, bookings, req, today).Failure?
    ensures !req.quantity.Malformed? && FindClient(users, req.guestId.value).Some?
            && req.serviceId.Some? && FindService(services, req.serviceId.value).Some?
            ==> Resolve(users, services, bookings, req, today) == Failure(NoActiveBooking)
  {
  }

  /** When the guest has exactly one booking covering today, the assignment goes to
      that booking. */
  lemma SingleActiveBookingIsChosen(users: seq<User>, services: seq<Service>, bookings: seq<Booking>, req: AssignRequest, today: Date, b: Booking)
    requires b in bookings && req.guestId == Some(b.guestId) && IsActiveOn(b, today)
    requires forall c :: c in bookings && c.guestId == b.guestId && IsActiveOn(c, today) ==> c == b
    requires Resolve(users, services, bookings, req, today).Success?
    ensures Resolve(users, services, bookings, req, today).value.booking == b
  {
  }

  /** The outcome of the assignment handler on a posted form, after the role gate. */
  datatype AssignOutcome =
    | ToLogin                       // an anonymous caller is sent to the login page
    | Denied                        // "Access denied."
    | Failed(error: AssignError)    // an error message; nothing is written
    | Created(key: Key, quantity: int)
    | Merged(key: Key, quantity: int)  // the key's row now holds `quantity`

  /** The handler as written, after the role gate: parsing the quantity can raise,
      and otherwise the guest lookup raises on the undefined name; either exception
      is caught and reported, so no posted form ever reaches a write. */
  function AddServiceAsWritten(caller: Access.Caller, req: AssignRequest): (r: AssignOutcome)
    ensures !r.Created? && !r.Merged?
    ensures r.Failed? <==> Access.Authorize(caller, Access.ManagerArea).Admitted?
  {
    match Access.Authorize(caller, Access.ManagerArea)
    case LoginRequired => ToLogin
    case AccessDenied => Denied
    case Admitted(_) =>
      if req.quantity.Malformed? then Failed(BadQuantity) else Failed(NameLookupFailed)
  }

  /** A manager assigning one spa visit to a client who is staying at the hotel: the
      intended lookup succeeds, the handler as written reports an error. */
  lemma AsWrittenRejectsValidAssignment()
    ensures var manager := NewUser(1, "m@hotel").(role := Manager);
            var guest := NewUser(2, "g@hotel").(role := Client);
            var spa := Service(7, "Spa", 100.0, "", true);
            var stay := NewBooking(3, 2, 5, 10, 14, 400.0);
            var req := AssignRequest(Some(2), Some(7), Some(12), Absent);
            && Resolve([manager, guest], [spa], [stay], req, 11).Success?
            && AddServiceAsWritten(Access.Authenticated(manager), req) == Failed(NameLookupFailed)
  {
    var guest := NewUser(2, "g@hotel").(role := Client);
    var spa := Service(7, "Spa", 100.0, "", true);
    var stay := NewBooking(3, 2, 5, 10, 14, 400.0);
    assert FindClient([NewUser(1, "m@hotel").(role := Manager), guest], 2) == Some(guest);
    assert FindService([spa], 7) == Some(spa);
    assert FindActiveBooking([stay], 2, 11) == Some(stay);
  }
}
