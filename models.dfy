/** The persisted entities of the hotel application as value records, the user role
    enumeration, and the discount rule a user applies to a price. Primary keys are
    plain integers; a foreign key is the integer id of the row it refers to. */
module Models {
  import opened Common

  /** A calendar day, as a day number: only the order of days matters to the model. */
  type Date = int

  /** The four roles a user can hold. */
  datatype UserRole = Guest | Client | Manager | Admin

  /** The stored text value of each role. */
  function RoleValue(role: UserRole): string
  {
    match role
    case Guest => "guest"
    case Client => "client"
    case Manager => "manager"
    case Admin => "admin"
  }

  /** The role whose stored value is `s`, if any. */
  function ParseRole(s: string): (r: Option<UserRole>)
    ensures r.Some? ==> RoleValue(r.value) == s
    ensures r.None? ==> forall role :: RoleValue(role) != s
  {
    if s == "guest" then Some(Guest)
    else if s == "client" then Some(Client)
    else if s == "manager" then Some(Manager)
    else if s == "admin" then Some(Admin)
    else None
  }

  const AllRoles: set<UserRole> := {Guest, Client, Manager, Admin}

  /** There are exactly four roles, and their stored values tell them apart. */
  lemma RolesAreFourDistinctValues()
    ensures forall role :: role in AllRoles
    ensures |AllRoles| == 4
    ensures forall r1, r2 :: RoleValue(r1) == RoleValue(r2) ==> r1 == r2
    ensures forall role :: ParseRole(RoleValue(role)) == Some(role)
  {
    forall role: UserRole ensures role in AllRoles {
      match role
      case Guest =>
      case Client =>
      case Manager =>
      case Admin =>
    }
    assert |{Guest, Client}| == 2;
    assert |{Guest, Client, Manager}| == 3;
    forall r1, r2 | RoleValue(r1) == RoleValue(r2) ensures r1 == r2 {
      assert ParseRole(RoleValue(r1)) == Some(r1);
    }
  }

  datatype Document = Document(id: int, series: string, number: string, issueDate: Date, issuedBy: string)

  /** A user account. `discount` is a percentage; `documentId` and `birthDate` are optional. */
  datatype User = User(
    id: int,
    email: string,
    firstName: string,
    phoneNumber: string,
    role: UserRole,
    isStaff: bool,
    isActive: bool,
    documentId: Option<int>,
    birthDate: Option<Date>,
    discount: real)

  /** A user record as created with only its key and email given: every other field
      takes its declared default. */
  function NewUser(id: int, email: string): User
  {
    User(id, email, "", "", Guest, false, true, None, None, 0.0)
  }

  datatype Category = Category(id: int, name: string, price: real, description: string)

  datatype Room = Room(id: int, categoryId: int, floor: int, roomCount: int, bedCount: int)

  datatype Booking = Booking(
    id: int,
    guestId: int,
    roomId: int,
    checkInDate: Date,
    checkOutDate: Date,
    totalCost: real,
    paidAmount: real)

  /** A booking as created without a payment: the paid amount defaults to zero. */
  function NewBooking(id: int, guestId: int, roomId: int, checkIn: Date, checkOut: Date, totalCost: real): Booking
  {
    Booking(id, guestId, roomId, checkIn, checkOut, totalCost, 0.0)
  }

  datatype Service = Service(id: int, name: string, cost: real, description: string, isActive: bool)

  /** One assignment of a service to a booking on a given day, with how many times it is provided. */
  datatype ServiceProvision = ServiceProvision(bookingId: int, serviceId: int, quantity: int, serviceDate: Date)

  /** A provision as created without a quantity: the quantity defaults to one. */
  function NewProvision(bookingId: int, serviceId: int, serviceDate: Date): ServiceProvision
  {
    ServiceProvision(bookingId, serviceId, 1, serviceDate)
  }

  /** The price a user with the given discount percentage pays for `price`. The
      discount is not clamped: a value above 100 gives a negative price. */
  function PriceWithDiscount(discount: real, price: real): (r: real)
    ensures discount <= 0.0 ==> r == price
    ensures discount > 0.0 ==> r == price * (100.0 - discount) / 100.0
  {
    if discount <= 0.0 then price
    else
      var discountAmount := price * discount / 100.0;
      price - discountAmount
  }

  /** With a non-negative price and a discount between 0 and 100 the user pays
      between nothing and the full price; a discount of 100 makes it free. */
  lemma DiscountedPriceBounds(discount: real, price: real)
    requires 0.0 <= price && 0.0 <= discount <= 100.0
    ensures 0.0 <= PriceWithDiscount(discount, price) <= price
    ensures discount == 100.0 ==> PriceWithDiscount(discount, price) == 0.0
  {
    if discount > 0.0 {
      assert price * discount >= 0.0;
      assert price * discount <= price * 100.0;
    }
  }

  /** A larger discount never makes a non-negative price larger. */
  lemma DiscountIsMonotone(d1: real, d2: real, price: real)
    requires 0.0 <= price && d1 <= d2
    ensures PriceWithDiscount(d2, price) <= PriceWithDiscount(d1, price)
  {
    if d2 > 0.0 {
      assert price * d2 >= 0.0;
      if d1 > 0.0 {
        assert price * d1 <= price * d2;
      }
    }
  }

  /** The discount is not clamped: above 100 percent a positive price turns negative. */
  lemma DiscountAboveHundredIsNegative(discount: real, price: real)
    requires price > 0.0 && discount > 100.0
    ensures PriceWithDiscount(discount, price) < 0.0
  {
    var amount := price * discount / 100.0;
    assert price * discount > price * 100.0;
    assert amount > price;
    assert PriceWithDiscount(discount, price) == price - amount;
  }

  /** A 10 percent discount on a service costing 100.00 gives 90.00. */
  lemma TenPercentOffHundred()
    ensures PriceWithDiscount(10.0, 100.0) == 90.0
  {
  }

  /** A freshly created user is a guest without a discount, and so pays full price. */
  lemma FreshUserPaysFullPrice(id: int, email: string, price: real)
    ensures NewUser(id, email).role == Guest
    ensures NewUser(id, email).discount == 0.0
    ensures PriceWithDiscount(NewUser(id, email).discount, price) == price
  {
  }
}
