/** The sign-in form: its checks, the mock user it makes from the email address, and where
    it goes next. No credential is checked. */
module SignIn {
  import opened Model
  import opened Strings
  import AppContext

  const FillAllFields := "Please fill in all fields"
  const InvalidEmail := "Please enter a valid email"

  /** The mock user: named after the email's part before the first '@', a vendor exactly
      when the email contains "vendor". */
  function MockUser(id: string, email: string): User
  {
    User(id, BeforeFirst(email, '@'), email,
         Some(if Contains(email, "vendor") then VendorRole else ShopOwnerRole))
  }

  /** The outcome of a submission, the checks in the order the form makes them. */
  function Authenticate(email: string, password: string, id: string): (r: AuthOutcome)
    ensures email == "" || password == "" ==> r == Rejected(FillAllFields)
    ensures email != "" && password != "" && '@' !in email ==> r == Rejected(InvalidEmail)
    ensures r.Accepted? <==> email != "" && password != "" && '@' in email
    ensures r.Accepted? ==>
      && r.user.id == id && r.user.email == email
      && r.user.name + "@" <= email && '@' !in r.user.name
      && (r.user.role == Some(VendorRole) <==> Occurs(email, "vendor"))
      && (r.user.role == Some(ShopOwnerRole) <==> !Occurs(email, "vendor"))
      && r.target == DashboardPath(r.user.role)
  {
    ContainsChar(email, '@');
    if email == "" || password == "" then Rejected(FillAllFields)
    else if !Contains(email, "@") then Rejected(InvalidEmail)
    else
      var user := MockUser(id, email);
      Accepted(user, DashboardPath(user.role))
  }

  /** Every non-empty password signs in any well-formed email: there is no credential check. */
  lemma AnyPasswordAccepted(email: string, password: string, other: string, id: string)
    requires '@' in email && password != "" && other != ""
    ensures Authenticate(email, password, id) == Authenticate(email, other, id)
    ensures Authenticate(email, password, id).Accepted?
  {
  }

  /** The form's own state. */
  class SignInForm {
    var email: string
    var password: string
    var error: string
    var loading: bool

    constructor ()
      ensures email == "" && password == "" && error == "" && !loading
    {
      email, password, error, loading := "", "", "", false;
    }

    /** The field bindings; the inputs are disabled while a submission is pending. */
    method Edit(newEmail: string, newPassword: string)
      requires !loading
      modifies this
      ensures email == newEmail && password == newPassword && error == old(error) && loading == old(loading)
    {
      email, password := newEmail, newPassword;
    }

    /** What `handleSubmit` does at once: clear the error and show the spinner. The submit
        button is disabled while a submission is pending. */
    method BeginSubmit()
      requires !loading
      modifies this
      ensures error == "" && loading
      ensures email == old(email) && password == old(password)
    {
      error, loading := "", true;
    }

    /** What it does when the simulated call returns: show the first failing check, or store
        the mock user and return the dashboard to go to. */
    method CompleteSubmit(store: AppContext.Store, freshId: string) returns (target: Option<string>)
      requires store.Valid()
      modifies this, store
      ensures store.Valid() && !loading
      ensures email == old(email) && password == old(password)
      ensures match Authenticate(email, password, freshId)
        case Rejected(e) => error == e && target == None && store.user == old(store.user)
        case Accepted(u, t) => error == old(error) && target == Some(t) && store.user == Some(u)
      ensures store.products == old(store.products) && store.cart == old(store.cart)
      ensures store.orders == old(store.orders) && store.messages == old(store.messages)
    {
      match Authenticate(email, password, freshId)
      case Rejected(e) =>
        error := e;
        loading := false;
        target := None;
      case Accepted(u, t) =>
        store.SetUser(Some(u));
        loading := false;
        target := Some(t);
    }
  }
}
