/** The stored tables of the hotel and the two handlers that write to them:
    registration, which adds a client account, and service assignment, which adds
    a service provision or merges into the existing one for the same booking,
    service and day. */
module Hotel {
  import opened Common
  import opened Models
  import opened Access
  import opened Forms
  import opened Bookings
  import opened Provisions
  import opened Assign

  /** No two accounts share a primary key. */
  predicate UserIdsUnique(users: seq<User>)
  {
    forall i, j :: 0 <= i < j < |users| ==> users[i].id != users[j].id
  }

  /** No two accounts share an email: the email column is unique. */
  predicate EmailsUnique(users: seq<User>)
  {
    forall i, j :: 0 <= i < j < |users| ==> users[i].email != users[j].email
  }

  /** No two services share a primary key, so a lookup by id names one row. */
  predicate ServiceIdsUnique(services: seq<Service>)
  {
    forall i, j :: 0 <= i < j < |services| ==> services[i].id != services[j].id
  }

  /** With unique service ids, the lookup by id finds the one service with that id:
      the row `get_object_or_404` returns. */
  lemma FindServiceIsTheRowWithId(services: seq<Service>, s: Service)
    requires ServiceIdsUnique(services)
    requires s in services
    ensures FindService(services, s.id) == Some(s)
  {
  }

  /** A primary key above every stored one: the key the database gives a new account. */
  function NextUserId(users: seq<User>): (id: int)
    ensures forall u :: u in users ==> u.id < id
  {
    if |users| == 0 then 1
    else
      var n := |users| - 1;
      assert users == users[..n] + [users[n]];
      var before := NextUserId(users[..n]);
      if users[n].id < before then before else users[n].id + 1
  }

  /** What the registration handler does with a posted form. */
  datatype RegisterOutcome =
    | Invalid(errors: seq<FormError>)  // the form is shown again with these messages
    | CreateFailed                     // the account could not be created; an error message
    | Registered(user: User)           // the account exists; the caller is sent to the login page

  class Hotel {
    var users: seq<User>
    var services: seq<Service>
    var rooms: seq<Room>
    var categories: seq<Category>
    var bookings: seq<Booking>
    var provisions: seq<ServiceProvision>

    /** The table invariants the two writing handlers keep. The booking rows are held in
        primary-key order, the order in which `.first()` sees them. */
    ghost predicate Valid()
      reads this
    {
      && KeysUnique(provisions) && UserIdsUnique(users) && EmailsUnique(users)
      && ServiceIdsUnique(services) && IdsAscending(bookings)
    }

    constructor (users: seq<User>, services: seq<Service>, rooms: seq<Room>, categories: seq<Category>,
                 bookings: seq<Booking>, provisions: seq<ServiceProvision>)
      requires KeysUnique(provisions) && UserIdsUnique(users) && EmailsUnique(users)
      requires ServiceIdsUnique(services) && IdsAscending(bookings)
      ensures Valid()
      ensures this.users == users && this.services == services && this.rooms == rooms
      ensures this.categories == categories && this.bookings == bookings && this.provisions == provisions
    {
      this.users := users;
      this.services := services;
      this.rooms := rooms;
      this.categories := categories;
      this.bookings := bookings;
      this.provisions := provisions;
    }

    /** The registration handler on a posted form. Every check runs, and the account is
        created, always as a client, exactly when none of them fails; `createRaises`
        stands for the account manager refusing the record. */
    method RegisterView(form: RegisterForm, createRaises: bool) returns (r: RegisterOutcome)
      requires Valid()
      modifies this`users
      ensures Valid()
      ensures r.Invalid? <==> !Acceptable(form, old(users))
      ensures r.Invalid? ==> InOrder(r.errors) && forall e :: e in r.errors <==> Applies(e, form, old(users))
      ensures r.CreateFailed? <==> Acceptable(form, old(users)) && createRaises
      ensures r.Registered? ==> form.email.Some? && r.user == RegisteredUser(NextUserId(old(users)), form)
      ensures r.Registered? ==> r.user.role == Client && r.user.email == form.email.value
      ensures users == if r.Registered? then old(users) + [r.user] else old(users)
    {
      var errors := RegistrationErrors(form, users);
      if errors != [] {
        r := Invalid(errors);
      } else if createRaises {
        r := CreateFailed;
      } else {
        var user := RegisteredUser(NextUserId(users), form);
        users := users + [user];
        r := Registered(user);
      }
    }

    /** The service assignment handler on a posted form, with the guest looked up by
        the posted `guest_id` (the handler as written refers to an undefined name; see
        `Assign.AddServiceAsWritten`). Past the manager gate and the lookups, the
        provision for the key (booking, service, day) gains the requested quantity, or
        is created with it; nothing else is written. */
    method AddService(caller: Caller, req: AssignRequest, today: Date) returns (r: AssignOutcome)
      requires Valid()
      modifies this`provisions
      ensures Valid()
      ensures r.ToLogin? <==> caller.Anonymous?
      ensures r == Denied <==> Authorize(caller, ManagerArea) == AccessDenied
      ensures !Authorize(caller, ManagerArea).Admitted? ==> provisions == old(provisions)
      ensures Authorize(caller, ManagerArea).Admitted? ==>
        match Resolve(users, services, bookings, req, today)
        case Failure(e) => r == Failed(e) && provisions == old(provisions)
        case Success(a) =>
          var key := AssignmentKey(a);
          && provisions == Upsert(old(provisions), key, a.quantity)
          && (r.Merged? <==> HasKey(old(provisions), key))
          && (r.Created? <==> !HasKey(old(provisions), key))
          && r.key == key
          && (r.Created? ==> r.quantity == a.quantity)
          && (r.Merged? ==> r.quantity == old(provisions)[FindProvision(old(provisions), key).value].quantity + a.quantity)
    {
      match Authorize(caller, ManagerArea)
      case LoginRequired =>
        r := ToLogin;
      case AccessDenied =>
        r := Denied;
      case Admitted(_) =>
        match Resolve(users, services, bookings, req, today)
        case Failure(e) =>
          r := Failed(e);
        case Success(a) =>
          var key := AssignmentKey(a);
          UpsertKeepsKeysUnique(provisions, key, a.quantity);
          match FindProvision(provisions, key)
          case Some(i) =>
            var row := provisions[i];
            var quantity := row.quantity + a.quantity;
            provisions := provisions[i := row.(quantity := quantity)];
            r := Merged(key, quantity);
          case None =>
            provisions := provisions + [NewProvision(key.bookingId, key.serviceId, key.serviceDate).(quantity := a.quantity)];
            r := Created(key, a.quantity);
    }

    /** The assignment handler with the guest lookup corrected but its message step as
        written: both success messages read `full_name` of the guest, an attribute users
        do not have. The row is saved or created first; the error raised by the message
        is then caught and reported, so every assignment that is written is reported as
        a failure (and the create branch never reaches its redirect). */
    method AddServiceReportAsWritten(caller: Caller, req: AssignRequest, today: Date) returns (r: AssignOutcome)
      requires Valid()
      modifies this`provisions
      ensures Valid()
      ensures !r.Created? && !r.Merged?
      ensures r.ToLogin? <==> caller.Anonymous?
      ensures r == Denied <==> Authorize(caller, ManagerArea) == AccessDenied
      ensures !Authorize(caller, ManagerArea).Admitted? ==> provisions == old(provisions)
      ensures Authorize(caller, ManagerArea).Admitted? ==>
        match Resolve(users, services, bookings, req, today)
        case Failure(e) => r == Failed(e) && provisions == old(provisions)
        case Success(a) =>
          && provisions == Upsert(old(provisions), AssignmentKey(a), a.quantity)
          && r == Failed(AttributeMissing)
    {
      var written := AddService(caller, req, today);
      r := if written.Created? || written.Merged? then Failed(AttributeMissing) else written;
    }
  }

  /** A manager assigns one spa visit to a client staying from day 152 to day 156, on
      day 153, twice: one provision row results, with quantity two. */
  method AssignTwiceScenario() returns (rows: seq<ServiceProvision>)
    ensures rows == [ServiceProvision(3, 7, 2, 153)]
  {
    var manager := NewUser(1, "manager@hotel").(role := Manager);
    var guest := NewUser(2, "alice@hotel").(role := Client);
    var spa := Service(7, "Spa", 100.0, "", true);
    var stay := NewBooking(3, 2, 5, 152, 156, 500.0);
    var hotel := new Hotel([manager, guest], [spa], [], [], [stay], []);
    var req := AssignRequest(Some(2), Some(7), Some(153), Number(1));
    assert FindClient([manager, guest], 2) == Some(guest);
    assert FindService([spa], 7) == Some(spa);
    assert FindActiveBooking([stay], 2, 153) == Some(stay);
    var first := hotel.AddService(Authenticated(manager), req, 153);
    assert hotel.provisions == [ServiceProvision(3, 7, 1, 153)];
    var second := hotel.AddService(Authenticated(manager), req, 153);
    rows := hotel.provisions;
  }

  /** A first spa visit for a client staying from day 10 to day 14, assigned on day 11
      with the guest lookup corrected: the provision row is written, yet the handler
      as written reports an error. */
  method WrittenRowReportedAsError() returns (r: AssignOutcome, rows: seq<ServiceProvision>)
    ensures r == Failed(AttributeMissing)
    ensures rows == [ServiceProvision(3, 7, 1, 12)]
  {
    var manager := NewUser(1, "m@hotel").(role := Manager);
    var guest := NewUser(2, "g@hotel").(role := Client);
    var spa := Service(7, "Spa", 100.0, "", true);
    var stay := NewBooking(3, 2, 5, 10, 14, 400.0);
    var hotel := new Hotel([manager, guest], [spa], [], [], [stay], []);
    var req := AssignRequest(Some(2), Some(7), Some(12), Absent);
    assert FindClient([manager, guest], 2) == Some(guest);
    assert FindService([spa], 7) == Some(spa);
    assert FindActiveBooking([stay], 2, 11) == Some(stay);
    r := hotel.AddServiceReportAsWritten(Authenticated(manager), req, 11);
    rows := hotel.provisions;
  }
}
