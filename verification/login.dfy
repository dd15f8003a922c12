/** The login page: two tabs, each with its own email and password fields,
    whose submit handlers accept any non-empty pair, write the session and
    send the visitor to their section. */
module Login {
  import opened Optional
  import opened Toasts
  import opened Session
  import Routes

  /** The four independent field states. */
  datatype Form = Form(adminEmail: string, adminPassword: string, userEmail: string, userPassword: string)

  const EmptyForm: Form := Form("", "", "", "")

  datatype FormField = AdminEmail | AdminPassword | UserEmail | UserPassword

  /** An input's `onChange`: that field becomes the typed text. */
  function SetField(f: Form, field: FormField, value: string): (r: Form)
    ensures field == AdminEmail ==> r == f.(adminEmail := value)
    ensures field == AdminPassword ==> r == f.(adminPassword := value)
    ensures field == UserEmail ==> r == f.(userEmail := value)
    ensures field == UserPassword ==> r == f.(userPassword := value)
  {
    match field
    case AdminEmail => f.(adminEmail := value)
    case AdminPassword => f.(adminPassword := value)
    case UserEmail => f.(userEmail := value)
    case UserPassword => f.(userPassword := value)
  }

  /** What a submit leaves behind: the session, where the router is sent (if
      anywhere), and the toast. */
  datatype Outcome = Outcome(session: Session, target: Option<Routes.Path>, toast: Toast)

  /** Each role's section root: "/admin" or "/user". */
  function Landing(role: Role): (path: Routes.Path)
    ensures path == [RoleName(role)]
  {
    match role
    case Admin => ["admin"]
    case User => ["user"]
  }

  function Welcome(role: Role): string {
    match role
    case Admin => "Admin login successful!"
    case User => "Login successful!"
  }

  /** The body both handlers share: a non-empty email and password are
      accepted without further checks. The password is read only for that
      test. */
  function SignIn(s: Session, role: Role, email: string, password: string): (o: Outcome)
    ensures o.target.Some? <==> email != "" && password != ""
    ensures o.target.Some? ==>
      o.session.role == Some(role) && o.session.email == Some(email)
      && o.target.value == Landing(role) && o.toast.Success?
    ensures o.target.None? ==> o.session == s && o.toast == Error("Please enter valid credentials")
  {
    if email != "" && password != "" then
      Outcome(Session(Some(role), Some(email)), Some(Landing(role)), Success(Welcome(role)))
    else
      Outcome(s, None, Error("Please enter valid credentials"))
  }

  /** `handleAdminLogin`. */
  function AdminLogin(f: Form, s: Session): (o: Outcome)
    ensures f.adminEmail != "" && f.adminPassword != "" ==>
      && o.session == Session(Some(Admin), Some(f.adminEmail))
      && o.target == Some(["admin"])
      && o.toast == Success("Admin login successful!")
    ensures f.adminEmail == "" || f.adminPassword == "" ==>
      o.session == s && o.target == None && o.toast == Error("Please enter valid credentials")
  {
    SignIn(s, Admin, f.adminEmail, f.adminPassword)
  }

  /** `handleUserLogin`. */
  function UserLogin(f: Form, s: Session): (o: Outcome)
    ensures f.userEmail != "" && f.userPassword != "" ==>
      && o.session == Session(Some(User), Some(f.userEmail))
      && o.target == Some(["user"])
      && o.toast == Success("Login successful!")
    ensures f.userEmail == "" || f.userPassword == "" ==>
      o.session == s && o.target == None && o.toast == Error("Please enter valid credentials")
  {
    SignIn(s, User, f.userEmail, f.userPassword)
  }

  /** The password never reaches the session: two accepted passwords give the
      same outcome. */
  lemma PasswordNeverStored(s: Session, role: Role, email: string, p1: string, p2: string)
    requires p1 != "" && p2 != ""
    ensures SignIn(s, role, email, p1) == SignIn(s, role, email, p2)
  {
  }

  /** An accepted login replaces whatever session was there before. */
  lemma LoginOverwrites(s1: Session, s2: Session, role: Role, email: string, password: string)
    requires email != "" && password != ""
    ensures SignIn(s1, role, email, password) == SignIn(s2, role, email, password)
  {
  }

  /** The two tabs do not share state: typing into one tab's fields does not
      change what the other tab's handler does. */
  lemma TabsIndependent(f: Form, s: Session, value: string)
    ensures AdminLogin(SetField(f, UserEmail, value), s) == AdminLogin(f, s)
    ensures AdminLogin(SetField(f, UserPassword, value), s) == AdminLogin(f, s)
    ensures UserLogin(SetField(f, AdminEmail, value), s) == UserLogin(f, s)
    ensures UserLogin(SetField(f, AdminPassword, value), s) == UserLogin(f, s)
  {
  }

  /** A successful login lands on the section's index page inside its
      dashboard. */
  lemma LandingPages()
    ensures Routes.Resolve(Landing(Admin)) == Routes.Screen(Routes.AdminDashboard, Routes.CityInfoManagement)
    ensures Routes.Resolve(Landing(User)) == Routes.Screen(Routes.UserDashboard, Routes.CityDetails)
  {
    Routes.AdminRoutes();
    Routes.UserRoutes();
  }

  /** The form starts empty, and an empty form is refused on both tabs. */
  lemma EmptyFormRefused(s: Session)
    ensures AdminLogin(EmptyForm, s).session == s && AdminLogin(EmptyForm, s).target == None
    ensures UserLogin(EmptyForm, s).session == s && UserLogin(EmptyForm, s).target == None
  {
  }
}
