/** The sign-up page of the client: the checks before it sends the
    register request, the request itself, and what it does with the
    response. */
module CreateAccountPage {
  import opened Common
  import opened Ledger
  import opened Text
  import UserModel
  import UserResolvers
  import ProtectedRoute

  datatype AccountForm = AccountForm(
    username: string,
    email: string,
    password: string,
    confirmPassword: string,
    userType: string)

  /** What comes back for the request: a GraphQL error list (its first
      message), data whose `register` is the new user's role or missing,
      or a thrown error (its message when it is an `Error`). */
  datatype Response =
    | Errors(firstMessage: string)
    | Data(register: Option<Role>)
    | Thrown(message: Option<string>)

  /** The page after the handler: the error shown, the user signed in (by
      role), the page navigated to, whether the form was cleared, and
      whether the request went out. */
  datatype Outcome = Outcome(
    error: string,
    login: Option<Role>,
    navigateTo: Option<string>,
    cleared: bool,
    sent: bool)

  /** The two checks before sending, in order. */
  function Validate(form: AccountForm): (r: Option<string>)
    ensures r.None? <==>
      form.username != [] && form.email != [] && form.password != [] && form.confirmPassword != [] && form.userType != []
      && form.password == form.confirmPassword
    ensures form.username == [] || form.email == [] || form.password == [] || form.confirmPassword == [] || form.userType == [] ==>
      r == Some("All fields are required")
    ensures r == Some("Passwords do not match") <==>
      form.username != [] && form.email != [] && form.password != [] && form.confirmPassword != [] && form.userType != []
      && form.password != form.confirmPassword
  {
    if form.username == [] || form.email == [] || form.password == [] || form.confirmPassword == [] || form.userType == [] then
      Some("All fields are required")
    else if form.password != form.confirmPassword then Some("Passwords do not match")
    else None
  }

  /** `userType.toUpperCase() === 'COLLECTOR' ? 'COLLECTOR' : 'ARTIST'`. */
  function RoleFor(userType: string): (r: Role)
    ensures r == Collector <==> ToUpper(userType) == "COLLECTOR"
    ensures r != Admin
  {
    if ToUpper(userType) == "COLLECTOR" then Collector else Artist
  }

  /** The register request. The empty pictures the page adds are dropped
      by the server's register, so they do not appear here. */
  function RegisterRequest(form: AccountForm): (r: UserModel.CreateUserArgs)
    ensures r.name == form.username && r.email == form.email && r.password == form.password
    ensures r.role == Some(RoleFor(form.userType))
  {
    UserModel.CreateUserArgs(form.username, form.email, form.password, Some(RoleFor(form.userType)))
  }

  /** The page to open after signing up as `role`: none for an
      administrator. */
  function LandingPage(role: Role): (r: Option<string>)
    ensures r.None? <==> role == Admin
    ensures r.Some? ==> r.value == ProtectedRoute.HomeOf(role)
  {
    match role
    case Artist => Some("/artist")
    case Collector => Some("/collector")
    case Admin => None
  }

  /** handleCreate: `response` is only consulted when the request is
      sent. */
  function HandleCreate(form: AccountForm, response: Response): (r: Outcome)
    ensures r.sent <==> Validate(form).None?
    ensures !r.sent ==> r == Outcome(Validate(form).value, None, None, false, false)
    ensures r.login.Some? || r.cleared || r.navigateTo.Some? ==> r.sent && response.Data? && response.register.Some?
    ensures r.sent && response.Data? && response.register.Some? ==>
      r == Outcome("", response.register, LandingPage(response.register.value), true, true)
    ensures r.sent && response.Errors? ==>
      r.error == (if response.firstMessage == [] then "Failed to create account" else response.firstMessage)
  {
    var check := Validate(form);
    if check.Some? then Outcome(check.value, None, None, false, false)
    else
      match response
      case Errors(message) =>
        Outcome(if message == [] then "Failed to create account" else message, None, None, false, true)
      case Data(register) =>
        if register.Some? then Outcome("", register, LandingPage(register.value), true, true)
        else Outcome("", None, None, false, true)
      case Thrown(message) =>
        Outcome(if message.Some? then message.value else "An error occurred", None, None, false, true)
  }

  /** A request that passed the page's checks is refused by the server's
      register exactly when the address is already in use. */
  lemma ValidatedRequestReachesEmailCheck(users: map<int, User>, form: AccountForm)
    requires Validate(form).None?
    ensures UserResolvers.CheckRegister(users, RegisterRequest(form)).None? <==>
      forall u :: u in users ==> users[u].email != form.email
  {
  }

  /** When the server creates the user the page asked for, the page signs
      them in with the role chosen on the form and opens that role's page,
      which admits them. */
  lemma SignUpLandsOnOwnPage(form: AccountForm)
    requires Validate(form).None?
    ensures var role := UserModel.NewUser(RegisterRequest(form)).role;
      var r := HandleCreate(form, Data(Some(role)));
      && role == RoleFor(form.userType)
      && r.login == Some(role)
      && r.navigateTo.Some?
      && ProtectedRoute.Guard(false, Some(role), ProtectedRoute.RequiredRoleOf(r.navigateTo.value)) == ProtectedRoute.Children
  {
  }
}
