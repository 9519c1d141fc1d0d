/** The request handlers that only read: the public service list, the client page
    and the manager pages. Each takes the caller and a snapshot of the tables and
    gives what the page shows, or the outcome of its role gate. */
module Views {
  import opened Common
  import opened Models
  import opened Access
  import opened Bookings

  /** The stored tables, as the handlers read them. */
  datatype Store = Store(
    users: seq<User>,
    services: seq<Service>,
    rooms: seq<Room>,
    categories: seq<Category>,
    bookings: seq<Booking>,
    provisions: seq<ServiceProvision>)

  /** What a login-protected handler returns: the login page for an anonymous caller,
      "Access denied." for a role it does not list, its page, or an unhandled error. */
  datatype View<+T> = ToLogin | Denied | Shown(content: T) | ServerError

  /** The role gate in front of a page: only an admitted caller sees `content`. */
  function Gated<T>(caller: Caller, allowed: set<UserRole>, content: T): (v: View<T>)
    ensures v.ToLogin? <==> caller.Anonymous?
    ensures v.Shown? <==> Authorize(caller, allowed).Admitted?
    ensures v.Denied? <==> Authorize(caller, allowed) == AccessDenied
    ensures v.Shown? ==> v.content == content
  {
    match Authorize(caller, allowed)
    case LoginRequired => ToLogin
    case AccessDenied => Denied
    case Admitted(_) => Shown(content)
  }

  // ---------------------------------------------------------------- services_list

  /** One line of the discounted price list a client sees. */
  datatype DiscountRow = DiscountRow(service: Service, originalPrice: real, discountedPrice: real, hasDiscount: bool)

  /** The discount summary shown to every visitor. */
  datatype UserData = UserData(discount: real, hasDiscount: bool, discountMoreThan10: bool, isGuest: bool)

  datatype ServicesPage = ServicesPage(services: seq<Service>, userData: UserData, rows: seq<DiscountRow>)

  /** A signed-in caller whose role is client: the only callers shown discounted rows. */
  predicate IsClientCaller(caller: Caller)
  {
    caller.Authenticated? && caller.user.role == Client
  }

  /** The price line for service `s` as user `u` sees it. With an ordinary price and
      discount the discounted price lies between nothing and the list price, and it
      is strictly below the list price exactly when the row is flagged as discounted. */
  function DiscountRowFor(u: User, s: Service): (row: DiscountRow)
    ensures row.service == s && row.originalPrice == s.cost
    ensures row.discountedPrice == PriceWithDiscount(u.discount, s.cost)
    ensures row.hasDiscount <==> u.discount > 0.0
    ensures 0.0 <= s.cost && 0.0 <= u.discount <= 100.0 ==> 0.0 <= row.discountedPrice <= row.originalPrice
    ensures 0.0 < s.cost && u.discount <= 100.0 ==> (row.hasDiscount <==> row.discountedPrice < row.originalPrice)
  {
    DiscountedPriceFacts(u.discount, s.cost);
    DiscountRow(s, s.cost, PriceWithDiscount(u.discount, s.cost), u.discount > 0.0)
  }

  /** For a price and discount in the ordinary ranges the discounted price lies between
      nothing and the list price; on a positive price any positive discount lowers it. */
  lemma DiscountedPriceFacts(discount: real, price: real)
    ensures 0.0 <= price && 0.0 <= discount <= 100.0 ==> 0.0 <= PriceWithDiscount(discount, price) <= price
    ensures 0.0 < price && 0.0 < discount ==> PriceWithDiscount(discount, price) < price
  {
    if 0.0 <= price && 0.0 <= discount <= 100.0 {
      DiscountedPriceBounds(discount, price);
    }
    if 0.0 < price && 0.0 < discount {
      assert price * discount > 0.0;
    }
  }

  /** The discount summary: an anonymous visitor counts as a guest without a discount;
      the two flags always agree with the discount shown. */
  function UserDataFor(caller: Caller): (r: UserData)
    ensures r.hasDiscount <==> r.discount > 0.0
    ensures r.discountMoreThan10 <==> r.discount > 10.0
    ensures r.discountMoreThan10 ==> r.hasDiscount
    ensures r.isGuest <==> caller.Anonymous? || caller.user.role == Guest
    ensures r.discount == if caller.Anonymous? then 0.0 else caller.user.discount
  {
    match caller
    case Anonymous => UserData(0.0, false, false, true)
    case Authenticated(u) => UserData(u.discount, u.discount > 0.0, u.discount > 10.0, u.role == Guest)
  }

  /** The public service list: the active services, the caller's discount summary, and
      for a client one discounted price line per active service, in table order. */
  method ServicesList(caller: Caller, services: seq<Service>) returns (page: ServicesPage)
    ensures forall s :: s in page.services <==> s in services && s.isActive
    ensures multiset(page.services) <= multiset(services)
    ensures forall s :: s in services && s.isActive ==> multiset(page.services)[s] == multiset(services)[s]
    ensures page.userData == UserDataFor(caller)
    ensures IsClientCaller(caller) ==> |page.rows| == |page.services|
    ensures IsClientCaller(caller) ==>
      forall i :: 0 <= i < |page.rows| ==> page.rows[i] == DiscountRowFor(caller.user, page.services[i])
    ensures !IsClientCaller(caller) ==> page.rows == []
  {
    var active := Filter(services, (s: Service) => s.isActive);
    var rows: seq<DiscountRow> := [];
    var i := 0;
    while i < |active|
      invariant 0 <= i <= |active|
      invariant IsClientCaller(caller) ==> |rows| == i
      invariant IsClientCaller(caller) ==> forall k :: 0 <= k < i ==> rows[k] == DiscountRowFor(caller.user, active[k])
      invariant !IsClientCaller(caller) ==> rows == []
    {
      var service := active[i];
      if caller.Authenticated? && caller.user.role == Client {
        var discounted := PriceWithDiscount(caller.user.discount, service.cost);
        rows := rows + [DiscountRow(service, service.cost, discounted, caller.user.discount > 0.0)];
      }
      i := i + 1;
    }
    page := ServicesPage(active, UserDataFor(caller), rows);
  }

  // ---------------------------------------------------------------- client and manager pages

  /** The users whose role is client, in table order. */
  function Clients(users: seq<User>): (r: seq<User>)
    ensures forall u :: u in r <==> u in users && u.role == Client
    ensures |r| == |set i | 0 <= i < |users| && users[i].role == Client|
  {
    var p := (u: User) => u.role == Client;
    FilterCountsMatches(users, p);
    assert MatchingIndices(users, p) == set i | 0 <= i < |users| && users[i].role == Client;
    Filter(users, p)
  }

  /** The client page: every role but a guest may see it. */
  function ClientPage(caller: Caller): (r: View<()>)
    ensures r.ToLogin? <==> caller.Anonymous?
    ensures r.Denied? <==> caller.Authenticated? && caller.user.role == Guest
    ensures r.Shown? <==> caller.Authenticated? && caller.user.role in {Admin, Manager, Client}
    ensures caller.Authenticated? && caller.user.role == Guest ==> r == Denied
  {
    if caller.Authenticated? then ClientAreaAdmits(caller.user); Gated(caller, ClientArea, ())
    else Gated(caller, ClientArea, ())
  }

  /** The list of clients shown on the manager start page and on the manager's client
      page; only administrators and managers see it. */
  function ManagerClients(caller: Caller, store: Store): (r: View<seq<User>>)
    ensures r.ToLogin? <==> caller.Anonymous?
    ensures r.Denied? <==> Authorize(caller, ManagerArea) == AccessDenied
    ensures r.Shown? <==> caller.Authenticated? && (caller.user.role == Admin || caller.user.role == Manager)
    ensures r.Shown? ==> forall u :: u in r.content <==> u in store.users && u.role == Client
    ensures r.Shown? ==> multiset(r.content) <= multiset(store.users)
  {
    Gated(caller, ManagerArea, Clients(store.users))
  }

  /** The four totals of the manager dashboard. */
  datatype Dashboard = Dashboard(totalClients: nat, totalServices: nat, totalRooms: nat, activeBookings: nat)

  /** The manager dashboard on day `today`: the number of clients, services and rooms,
      and the number of bookings whose stay covers `today`, both ends included. */
  function ManagerDashboard(caller: Caller, store: Store, today: Date): (r: View<Dashboard>)
    ensures r.ToLogin? <==> caller.Anonymous?
    ensures r.Denied? <==> Authorize(caller, ManagerArea) == AccessDenied
    ensures r.Shown? <==> caller.Authenticated? && (caller.user.role == Admin || caller.user.role == Manager)
    ensures r.Shown? ==> r.content.totalClients == |set i | 0 <= i < |store.users| && store.users[i].role == Client|
    ensures r.Shown? ==> r.content.totalServices == |store.services| && r.content.totalRooms == |store.rooms|
    ensures r.Shown? ==> r.content.activeBookings == |set i | 0 <= i < |store.bookings| && IsActiveOn(store.bookings[i], today)|
  {
    ActiveBookingsCoverToday(store.bookings, today);
    Gated(caller, ManagerArea,
      Dashboard(|Clients(store.users)|, |store.services|, |store.rooms|, CountActive(store.bookings, today)))
  }

  datatype ServiceSearch = ServiceSearch(services: seq<Service>, searchQuery: string)

  /** The manager's service list, narrowed by a search text when one is given. Whether
      a service's name matches the text is the database's case-insensitive containment
      test, taken here as the parameter `nameMatches`. */
  function ManagerServices(caller: Caller, store: Store, search: string, nameMatches: (string, string) -> bool)
    : (r: View<ServiceSearch>)
    ensures r.ToLogin? <==> caller.Anonymous?
    ensures r.Denied? <==> Authorize(caller, ManagerArea) == AccessDenied
    ensures r.Shown? <==> caller.Authenticated? && (caller.user.role == Admin || caller.user.role == Manager)
    ensures r.Shown? && search == "" ==> r.content.services == store.services
    ensures r.Shown? ==>
      forall s :: s in r.content.services <==> s in store.services && (search == "" || nameMatches(s.name, search))
    ensures r.Shown? ==> multiset(r.content.services) <= multiset(store.services)
  {
    var services := if search == "" then store.services
                    else Filter(store.services, (s: Service) => nameMatches(s.name, search));
    Gated(caller, ManagerArea, ServiceSearch(services, search))
  }

  // ---------------------------------------------------------------- manager_rooms

  predicate IsDigit(c: char)
  {
    '0' <= c <= '9'
  }

  predicate AllDigits(s: string)
  {
    forall i :: 0 <= i < |s| ==> IsDigit(s[i])
  }

  /** The value of a string of decimal digits. */
  function DigitsValue(s: string): nat
    requires AllDigits(s)
  {
    if s == [] then 0
    else 10 * DigitsValue(s[..|s| - 1]) + (s[|s| - 1] as int - '0' as int)
  }

  /** The whole number a query parameter spells when it is compared with an integer
      column: an optional sign followed by at least one decimal digit. */
  function ParseInt(s: string): (r: Option<int>)
    ensures r.Some? ==> s != ""
  {
    if s != [] && (s[0] == '+' || s[0] == '-') then
      var digits := s[1..];
      if digits != [] && AllDigits(digits) then
        var magnitude: int := DigitsValue(digits);
        Some(if s[0] == '-' then -magnitude else magnitude)
      else None
    else if s != [] && AllDigits(s) then Some(DigitsValue(s))
    else None
  }

  /** The decimal digits of `n`, without leading zeros. */
  function Decimal(n: nat): (s: string)
    ensures s != [] && AllDigits(s)
  {
    if n < 10 then [('0' as int + n) as char]
    else Decimal(n / 10) + [('0' as int + n % 10) as char]
  }

  lemma {:induction false} DecimalValue(n: nat)
    ensures DigitsValue(Decimal(n)) == n
  {
    if n >= 10 {
      DecimalValue(n / 10);
      var s := Decimal(n);
      assert s[..|s| - 1] == Decimal(n / 10);
    }
  }

  /** The usual spelling of a whole number. */
  function IntText(n: int): string
  {
    if n < 0 then "-" + Decimal(-n) else Decimal(n)
  }

  /** Every whole number, written the usual way, parses back to itself. */
  lemma ParseIntRoundTrip(n: int)
    ensures ParseInt(IntText(n)) == Some(n)
  {
    if n < 0 {
      DecimalValue(-n);
      assert IntText(n)[1..] == Decimal(-n);
    } else {
      DecimalValue(n);
    }
  }

  /** A query filter that is given but does not spell a number: comparing it with an
      integer column raises. */
  predicate NotANumber(filter: string)
  {
    filter != "" && ParseInt(filter).None?
  }

  /** Whether a room passes the bed filter: "4" stands for "four or more", any other
      non-empty value for that exact count, and an empty filter passes every room. */
  predicate BedMatches(bedFilter: string, room: Room)
  {
    if bedFilter == "" then true
    else if bedFilter == "4" then room.bedCount >= 4
    else ParseInt(bedFilter) == Some(room.bedCount)
  }

  /** Whether a room passes the category filter; an empty filter passes every room. */
  predicate CategoryMatches(categoryFilter: string, room: Room)
  {
    categoryFilter == "" || ParseInt(categoryFilter) == Some(room.categoryId)
  }

  /** The rooms listed for the two filters, in table order, or `None` when a filter
      given is not a number. */
  function FilterRooms(rooms: seq<Room>, bedFilter: string, categoryFilter: string): (r: Option<seq<Room>>)
    ensures r.None? <==> (bedFilter != "4" && NotANumber(bedFilter)) || NotANumber(categoryFilter)
    ensures r.Some? ==> forall x :: x in r.value <==>
      && x in rooms
      && (bedFilter == "4" ==> x.bedCount >= 4)
      && (bedFilter != "" && bedFilter != "4" ==> ParseInt(bedFilter) == Some(x.bedCount))
      && (categoryFilter != "" ==> ParseInt(categoryFilter) == Some(x.categoryId))
    ensures r.Some? ==> multiset(r.value) <= multiset(rooms)
  {
    if bedFilter != "4" && NotANumber(bedFilter) then None
    else if NotANumber(categoryFilter) then None
    else
      var byBeds := Filter(rooms, (x: Room) => BedMatches(bedFilter, x));
      Some(Filter(byBeds, (x: Room) => CategoryMatches(categoryFilter, x)))
  }

  /** Only the exact text "4" widens the bed filter: "04" and "+4" name exactly four beds. */
  lemma OnlyFourItselfMeansFourOrMore(rooms: seq<Room>)
    requires forall x :: x in rooms ==> x.bedCount == 5
    ensures FilterRooms(rooms, "4", "") == Some(rooms)
    ensures FilterRooms(rooms, "04", "") == Some([])
    ensures FilterRooms(rooms, "+4", "") == Some([])
  {
    FilterKeepsAll(rooms, (x: Room) => BedMatches("4", x));
    FilterKeepsAll(rooms, (x: Room) => CategoryMatches("", x));
    ExactFourDropsFive(rooms, "04");
    ExactFourDropsFive(rooms, "+4");
  }

  /** A bed filter other than "4" that reads as four keeps no five-bed room. */
  lemma ExactFourDropsFive(rooms: seq<Room>, bedFilter: string)
    requires forall x :: x in rooms ==> x.bedCount == 5
    requires bedFilter == "04" || bedFilter == "+4"
    ensures FilterRooms(rooms, bedFilter, "") == Some([])
  {
    assert ParseInt(bedFilter) == Some(4) by {
      if bedFilter == "04" {
        assert AllDigits("04");
        assert "04"[..1] == "0" && "0"[..0] == "";
      } else {
        assert "+4"[1..] == "4" && "4"[..0] == "";
      }
    }
    FilterDropsAll(rooms, (x: Room) => BedMatches(bedFilter, x));
    FilterDropsAll([], (x: Room) => CategoryMatches("", x));
  }

  /** Filtering by a condition no row meets leaves nothing. */
  lemma {:induction false} FilterDropsAll<T>(s: seq<T>, p: T -> bool)
    requires forall x :: x in s ==> !p(x)
    ensures Filter(s, p) == []
  {
    if |s| > 0 {
      var n := |s| - 1;
      assert s[n] in s;
      FilterDropsAll(s[..n], p);
    }
  }

  /** Filtering by a condition every row meets keeps the table as it is. */
  lemma {:induction false} FilterKeepsAll<T>(s: seq<T>, p: T -> bool)
    requires forall x :: x in s ==> p(x)
    ensures Filter(s, p) == s
  {
    if |s| > 0 {
      var n := |s| - 1;
      assert s == s[..n] + [s[n]];
      FilterKeepsAll(s[..n], p);
    }
  }

  datatype RoomsPage = RoomsPage(rooms: seq<Room>, categories: seq<Category>, bedFilter: string, categoryFilter: string)

  /** The manager's room list with its two filters, as the handler evidently intends it
      (the page context without the undefined `bed_counts`). A filter that is not a
      number makes the handler fail. */
  function ManagerRooms(caller: Caller, store: Store, bedFilter: string, categoryFilter: string): (r: View<RoomsPage>)
    ensures r.ToLogin? <==> caller.Anonymous?
    ensures r.Denied? <==> Authorize(caller, ManagerArea) == AccessDenied
    ensures r.Shown? <==> Authorize(caller, ManagerArea).Admitted? && FilterRooms(store.rooms, bedFilter, categoryFilter).Some?
    ensures r.Shown? ==> r.content.rooms == FilterRooms(store.rooms, bedFilter, categoryFilter).value
    ensures r.Shown? ==> r.content.categories == store.categories
  {
    match Authorize(caller, ManagerArea)
    case LoginRequired => ToLogin
    case AccessDenied => Denied
    case Admitted(_) =>
      match FilterRooms(store.rooms, bedFilter, categoryFilter)
      case None => ServerError
      case Some(rooms) => Shown(RoomsPage(rooms, store.categories, bedFilter, categoryFilter))
  }

  /** The room handler as written: once past the gate, building the page context reads
      the undefined name `bed_counts`, so every admitted request fails. */
  function ManagerRoomsAsWritten(caller: Caller, store: Store, bedFilter: string, categoryFilter: string): (r: View<RoomsPage>)
    ensures !r.Shown?
    ensures r.ServerError? <==> Authorize(caller, ManagerArea).Admitted?
  {
    match Authorize(caller, ManagerArea)
    case LoginRequired => ToLogin
    case AccessDenied => Denied
    case Admitted(_) => ServerError
  }

  /** An administrator asking for the unfiltered room list gets it from the intended
      handler and an error from the handler as written. */
  lemma RoomsAsWrittenAlwaysFails(admin: User, store: Store)
    requires admin.role == Admin
    ensures ManagerRooms(Authenticated(admin), store, "", "") ==
            Shown(RoomsPage(store.rooms, store.categories, "", ""))
    ensures ManagerRoomsAsWritten(Authenticated(admin), store, "", "") == ServerError
  {
    FilterKeepsAll(store.rooms, (x: Room) => BedMatches("", x));
    FilterKeepsAll(store.rooms, (x: Room) => CategoryMatches("", x));
  }

  // ---------------------------------------------------------------- the gates read nothing

  /** A caller turned away by the manager gate sees the same outcome whatever the
      tables hold: the handlers read nothing before the gate decides. */
  lemma DeniedManagerPagesReadNothing(caller: Caller, s1: Store, s2: Store, today: Date,
                                      search: string, nameMatches: (string, string) -> bool,
                                      bedFilter: string, categoryFilter: string)
    requires !Authorize(caller, ManagerArea).Admitted?
    ensures ManagerClients(caller, s1) == ManagerClients(caller, s2)
    ensures ManagerDashboard(caller, s1, today) == ManagerDashboard(caller, s2, today)
    ensures ManagerServices(caller, s1, search, nameMatches) == ManagerServices(caller, s2, search, nameMatches)
    ensures ManagerRooms(caller, s1, bedFilter, categoryFilter) == ManagerRooms(caller, s2, bedFilter, categoryFilter)
    ensures ManagerRooms(caller, s1, bedFilter, categoryFilter) in {ToLogin, Denied}
  {
  }
}
