/** Validation of the login and registration forms. A posted field is either absent
    (`None`) or a string; the handlers treat an absent field and an empty string alike
    as "not given". Each handler collects its error messages in a fixed order. */
module Forms {
  import opened Common
  import opened Models

  /** A posted field that is absent or empty (false in a boolean test). */
  predicate Blank(field: Option<string>)
  {
    field.None? || field.value == ""
  }

  /** The validation errors the two forms can report, in the order they are checked. */
  datatype FormError = EmailRequired | PasswordRequired | PasswordsDiffer | EmailTaken

  /** The message shown for each error. */
  function Message(e: FormError): string
  {
    match e
    case EmailRequired => "Email is required"
    case PasswordRequired => "Password is required"
    case PasswordsDiffer => "Passwords do not match"
    case EmailTaken => "User with this email already exists"
  }

  /** Each error has its own message, so the messages shown identify the failed checks. */
  lemma MessagesIdentifyErrors(e1: FormError, e2: FormError)
    ensures Message(e1) == Message(e2) ==> e1 == e2
  {
    if e1 != e2 {
      assert Message(e1)[0] != Message(e2)[0] || Message(e1)[1] != Message(e2)[1] || |Message(e1)| != |Message(e2)|;
    }
  }

  /** The position of each check in the handlers' sequence of checks. */
  function Rank(e: FormError): nat
  {
    match e
    case EmailRequired => 0
    case PasswordRequired => 1
    case PasswordsDiffer => 2
    case EmailTaken => 3
  }

  /** The errors appear in the order of their checks, each at most once. */
  predicate InOrder(errors: seq<FormError>)
  {
    forall i, j :: 0 <= i < j < |errors| ==> Rank(errors[i]) < Rank(errors[j])
  }

  /** The tail of an ordered list is ordered, and every entry of it ranks above the head. */
  lemma InOrderTail(a: seq<FormError>)
    requires InOrder(a) && a != []
    ensures InOrder(a[1..])
    ensures forall e :: e in a[1..] ==> Rank(a[0]) < Rank(e)
    ensures a == [a[0]] + a[1..]
  {
    var rest := a[1..];
    forall i, j | 0 <= i < j < |rest| ensures Rank(rest[i]) < Rank(rest[j]) {
      assert rest[i] == a[i + 1] && rest[j] == a[j + 1];
    }
    forall e | e in rest ensures Rank(a[0]) < Rank(e) {
      var k :| 0 <= k < |rest| && rest[k] == e;
      assert rest[k] == a[k + 1];
    }
  }

  /** An ordered error list has no repeats: it is as long as its set of members. */
  lemma {:induction false} InOrderHasNoRepeats(a: seq<FormError>)
    requires InOrder(a)
    ensures |set e | e in a| == |a|
  {
    if a != [] {
      var rest := a[1..];
      InOrderTail(a);
      InOrderHasNoRepeats(rest);
      assert a[0] !in rest;
      assert (set e | e in a) == {a[0]} + (set e | e in rest);
    }
  }

  /** The head of an ordered list ranks lowest among its entries. */
  lemma HeadRanksLowest(a: seq<FormError>, e: FormError)
    requires InOrder(a) && e in a
    ensures Rank(a[0]) <= Rank(e)
  {
    var k :| 0 <= k < |a| && a[k] == e;
  }

  /** Two ordered error lists with the same members are the same list: membership and
      order together determine what a handler reports. */
  lemma {:induction false} InOrderDeterminesList(a: seq<FormError>, b: seq<FormError>)
    requires InOrder(a) && InOrder(b)
    requires forall e :: e in a <==> e in b
    ensures a == b
  {
    InOrderHasNoRepeats(a);
    InOrderHasNoRepeats(b);
    assert (set e | e in a) == (set e | e in b);
    if a != [] {
      var x, y := a[0], b[0];
      HeadRanksLowest(a, y);
      HeadRanksLowest(b, x);
      assert x == y by {
        assert Rank(x) == Rank(y);
        match x
        case EmailRequired =>
        case PasswordRequired =>
        case PasswordsDiffer =>
        case EmailTaken =>
      }
      InOrderTail(a);
      InOrderTail(b);
      forall e ensures e in a[1..] <==> e in b[1..] {
        if e in a[1..] {
          assert e != x && e in b;
        }
        if e in b[1..] {
          assert e != y && e in a;
        }
      }
      InOrderDeterminesList(a[1..], b[1..]);
    }
  }

  /** The checks of the login form: both fields are required. */
  method LoginErrors(email: Option<string>, password: Option<string>) returns (errors: seq<FormError>)
    ensures forall e :: e in errors <==> (e == EmailRequired && Blank(email)) || (e == PasswordRequired && Blank(password))
    ensures InOrder(errors)
  {
    errors := [];
    if Blank(email) {
      errors := errors + [EmailRequired];
    }
    if Blank(password) {
      errors := errors + [PasswordRequired];
    }
  }

  /** What the registration handler reads from the posted form. */
  datatype RegisterForm = RegisterForm(
    email: Option<string>,
    password: Option<string>,
    confirmPassword: Option<string>,
    fullName: string,
    phoneNumber: string)

  /** Some stored user already has the given email. An absent email matches no user. */
  predicate EmailInUse(email: Option<string>, users: seq<User>)
  {
    email.Some? && exists u :: u in users && u.email == email.value
  }

  /** Whether the registration check for `e` fails on `form` against the stored users.
      The password comparison is on the raw fields, so an absent password differs
      from an empty confirmation. */
  predicate Applies(e: FormError, form: RegisterForm, users: seq<User>)
  {
    match e
    case EmailRequired => Blank(form.email)
    case PasswordRequired => Blank(form.password)
    case PasswordsDiffer => form.password != form.confirmPassword
    case EmailTaken => EmailInUse(form.email, users)
  }

  /** A form that passes every registration check. */
  predicate Acceptable(form: RegisterForm, users: seq<User>)
  {
    !Blank(form.email) && !Blank(form.password) && form.password == form.confirmPassword
    && !EmailInUse(form.email, users)
  }

  lemma AcceptableIffNoCheckFails(form: RegisterForm, users: seq<User>)
    ensures Acceptable(form, users) <==> forall e :: !Applies(e, form, users)
  {
    if !Acceptable(form, users) {
      if Blank(form.email) {
        assert Applies(EmailRequired, form, users);
      } else if Blank(form.password) {
        assert Applies(PasswordRequired, form, users);
      } else if form.password != form.confirmPassword {
        assert Applies(PasswordsDiffer, form, users);
      } else {
        assert Applies(EmailTaken, form, users);
      }
    }
  }

  /** The checks of the registration form. Every check runs whatever the others found,
      so the list holds exactly the failing checks, in order. */
  method RegistrationErrors(form: RegisterForm, users: seq<User>) returns (errors: seq<FormError>)
    ensures forall e :: e in errors <==> Applies(e, form, users)
    ensures InOrder(errors)
    ensures errors == [] <==> Acceptable(form, users)
  {
    errors := [];
    if Blank(form.email) {
      errors := errors + [EmailRequired];
    }
    if Blank(form.password) {
      errors := errors + [PasswordRequired];
    }
    if form.password != form.confirmPassword {
      errors := errors + [PasswordsDiffer];
    }
    if EmailInUse(form.email, users) {
      errors := errors + [EmailTaken];
    }
    AcceptableIffNoCheckFails(form, users);
  }

  /** The user record a successful registration creates: always a client. */
  function RegisteredUser(id: int, form: RegisterForm): User
    requires form.email.Some?
  {
    NewUser(id, form.email.value).(firstName := form.fullName, phoneNumber := form.phoneNumber, role := Client)
  }
}
