/** Who may use which handler, and where a successful login leads. Every handler
    lists the roles it admits explicitly; no role hierarchy is assumed. */
module Access {
  import opened Common
  import opened Models
  import opened Forms

  /** The identity a request carries. */
  datatype Caller = Anonymous | Authenticated(user: User)

  /** The result of the checks in front of a login-protected handler: an anonymous
      caller is sent to the login page, a signed-in caller whose role is not allowed
      is turned away, anyone else goes on. */
  datatype Gate = LoginRequired | AccessDenied | Admitted(user: User)

  /** The roles admitted to the manager area (the manager pages and service assignment). */
  const ManagerArea: set<UserRole> := {Admin, Manager}

  /** The roles admitted to the client page. */
  const ClientArea: set<UserRole> := {Admin, Manager, Client}

  function Authorize(caller: Caller, allowed: set<UserRole>): (g: Gate)
    ensures g.LoginRequired? <==> caller.Anonymous?
    ensures g.Admitted? <==> caller.Authenticated? && caller.user.role in allowed
    ensures g.Admitted? ==> g.user == caller.user
  {
    match caller
    case Anonymous => LoginRequired
    case Authenticated(u) => if u.role in allowed then Admitted(u) else AccessDenied
  }

  /** The manager area admits exactly administrators and managers. */
  lemma ManagerAreaAdmits(u: User)
    ensures Authorize(Authenticated(u), ManagerArea).Admitted? <==> u.role == Admin || u.role == Manager
    ensures !Authorize(Authenticated(u), ManagerArea).Admitted? ==> Authorize(Authenticated(u), ManagerArea) == AccessDenied
  {
  }

  /** The client page admits every role but a guest. */
  lemma ClientAreaAdmits(u: User)
    ensures Authorize(Authenticated(u), ClientArea).Admitted? <==> u.role != Guest
  {
  }

  /** An administrator passes every gate; a client never enters the manager area; and
      every role admitted to the manager area is admitted to the client page. */
  lemma AdminPassesEveryGate(u: User)
    ensures u.role == Admin ==> Authorize(Authenticated(u), ManagerArea).Admitted?
    ensures u.role == Admin ==> Authorize(Authenticated(u), ClientArea).Admitted?
    ensures u.role == Client ==> Authorize(Authenticated(u), ManagerArea) == AccessDenied
    ensures ManagerArea <= ClientArea
  {
  }

  /** The page a user is sent to after signing in. */
  function LoginRedirect(role: UserRole): (target: string)
    ensures target == "admin" <==> role == Admin
    ensures target == "manager" <==> role == Manager
    ensures target == "services_list" <==> role == Client || role == Guest
  {
    if role == Admin then "admin"
    else if role == Manager then "manager"
    else if role == Client then "services_list"
    else assert role.Guest?; "services_list"
  }

  /** What the login handler does with a posted form. */
  datatype LoginOutcome =
    | ShowErrors(errors: seq<FormError>)
    | InvalidCredentials
    | Redirect(user: User, target: string)

  /** The login handler on a posted form. `authenticated` is what the credential
      check returns for the given email and password; it is consulted only when
      both fields were given. */
  method LoginView(email: Option<string>, password: Option<string>, authenticated: Option<User>)
    returns (r: LoginOutcome)
    ensures r.ShowErrors? <==> Blank(email) || Blank(password)
    ensures r.ShowErrors? ==> r.errors != [] && InOrder(r.errors)
    ensures r.ShowErrors? ==> (EmailRequired in r.errors <==> Blank(email))
    ensures r.ShowErrors? ==> (PasswordRequired in r.errors <==> Blank(password))
    ensures r.ShowErrors? ==> forall e :: e in r.errors ==> e == EmailRequired || e == PasswordRequired
    ensures r.InvalidCredentials? <==> !Blank(email) && !Blank(password) && authenticated.None?
    ensures r.Redirect? ==> authenticated == Some(r.user) && r.target == LoginRedirect(r.user.role)
  {
    var errors := LoginErrors(email, password);
    if errors != [] {
      assert errors[0] in errors;
      r := ShowErrors(errors);
    } else {
      assert !Blank(email) by { assert EmailRequired !in errors; }
      assert !Blank(password) by { assert PasswordRequired !in errors; }
      match authenticated
      case None =>
        r := InvalidCredentials;
      case Some(u) =>
        r := Redirect(u, LoginRedirect(u.role));
    }
  }
}
