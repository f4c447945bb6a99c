/** The sign-up form: three ordered checks, then a user with exactly the entered details. */
module SignUp {
  import opened Model
  import opened Strings
  import AppContext

  const FillAllFields := "Please fill in all fields"
  const InvalidEmail := "Please enter a valid email"
  const ShortPassword := "Password must be at least 6 characters"
  const MinPasswordLength := 6

  /** The outcome of a submission, the checks in the order the form makes them. */
  function Register(name: string, email: string, password: string, role: Option<Role>, id: string): (r: AuthOutcome)
    ensures name == "" || email == "" || password == "" || role.None? ==> r == Rejected(FillAllFields)
    ensures (name != "" && email != "" && password != "" && role.Some? && '@' !in email)
            ==> r == Rejected(InvalidEmail)
    ensures (name != "" && email != "" && password != "" && role.Some? && '@' in email
             && |password| < MinPasswordLength) ==> r == Rejected(ShortPassword)
    ensures r.Accepted? <==> name != "" && email != "" && role.Some? && '@' in email
                              && |password| >= MinPasswordLength
    ensures r.Accepted? ==> r.user == User(id, name, email, role) && r.target == DashboardPath(role)
  {
    ContainsChar(email, '@');
    if name == "" || email == "" || password == "" || role.None? then Rejected(FillAllFields)
    else if !Contains(email, "@") then Rejected(InvalidEmail)
    else if |password| < MinPasswordLength then Rejected(ShortPassword)
    else Accepted(User(id, name, email, role), DashboardPath(role))
  }

  /** The form's own state. */
  class SignUpForm {
    var name: string
    var email: string
    var password: string
    var role: Option<Role>
    var error: string
    var loading: bool

    constructor ()
      ensures name == "" && email == "" && password == "" && role == None && error == "" && !loading
    {
      name, email, password, role, error, loading := "", "", "", None, "", false;
    }

    /** The field bindings; the inputs are disabled while a submission is pending. */
    method Edit(newName: string, newEmail: string, newPassword: string)
      requires !loading
      modifies this
      ensures name == newName && email == newEmail && password == newPassword
      ensures role == old(role) && error == old(error) && loading == old(loading)
    {
      name, email, password := newName, newEmail, newPassword;
    }

    /** The two role buttons, disabled while a submission is pending. */
    method SelectRole(r: Role)
      requires !loading
      modifies this
      ensures role == Some(r)
      ensures name == old(name) && email == old(email) && password == old(password)
      ensures error == old(error) && loading == old(loading)
    {
      role := Some(r);
    }

    /** What `handleSubmit` does at once: clear the error and show the spinner. The submit
        button is disabled while a submission is pending. */
    method BeginSubmit()
      requires !loading
      modifies this
      ensures error == "" && loading
      ensures name == old(name) && email == old(email) && password == old(password) && role == old(role)
    {
      error, loading := "", true;
    }

    /** What it does when the simulated call returns: show the first failing check, or store
        the new user and return the dashboard to go to. */
    method CompleteSubmit(store: AppContext.Store, freshId: string) returns (target: Option<string>)
      requires store.Valid()
      modifies this, store
      ensures store.Valid() && !loading
      ensures name == old(name) && email == old(email) && password == old(password) && role == old(role)
      ensures match Register(name, email, password, role, freshId)
        case Rejected(e) => error == e && target == None && store.user == old(store.user)
        case Accepted(u, t) => error == old(error) && target == Some(t) && store.user == Some(u)
      ensures store.products == old(store.products) && store.cart == old(store.cart)
      ensures store.orders == old(store.orders) && store.messages == old(store.messages)
    {
      match Register(name, email, password, role, freshId)
      case Rejected(e) =>
        error := e;
        loading := false;
        target := None;
      case Accepted(u, t) =>
        store.SetUser(Some(u));
        loading := false;
        target := Some(t);
    }
  }
}
