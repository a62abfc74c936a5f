/** Values of the login form application: the user record being edited, the errors
    and messages of the application, and the tokens that stand for the iced runtime
    (the task returned by `update`, the screen chosen by `view`). */
module Types {

  datatype Option<+T> = None | Some(value: T)

  /** A 128-bit UUID, assigned by the database when a user is stored. */
  datatype Uuid = Uuid(bits: bv128)

  /** An opaque handle on a Postgres connection pool. */
  datatype PgPool = PgPool(handle: nat)

  /** The user whose details the forms edit. */
  datatype User = User(
    userId: Option<Uuid>,
    firstName: string,
    lastName: string,
    telephone: string,
    password: string)

  /** The user nobody has logged in as yet: no identifier, every text field empty. */
  function NewUser(): (u: User)
    ensures u.userId == None
    ensures u.firstName == [] && u.lastName == [] && u.telephone == [] && u.password == []
  {
    User(None, "", "", "", "")
  }

  datatype Error = WrongLoginPassword | RegistrationError

  /** Rust's `Result<User, Error>`, the payload of the two result messages. */
  datatype UserResult = Ok(user: User) | Err(error: Error)

  /** Every event `update` accepts. */
  datatype Message =
    | ShowLogin
    | Login
    | LoginResult(loginResult: UserResult)
    | ShowRegister
    | Register
    | RegistrationResult(registrationResult: UserResult)
    | Logout
    | HandleInputTelephone(telephone: string)
    | HandleInputPassword(password: string)
    | HandleInputFirstName(firstName: string)
    | HandleInputLastName(lastName: string)
    | SwitchFromLoginToRegister
    | SwitchFromRegisterToLogin

  /** The asynchronous database functions a task could run; their bodies are not modelled. */
  datatype Operation =
    | ConnectToDb
    | SaveUser(user: User)
    | AuthenticateUser(telephone: string, password: string)
    | GetAllUsers

  /** An iced task: either `Task::none()` or the performance of one operation whose
      result comes back as a message. */
  datatype Task = NoTask | Perform(operation: Operation)

  /** What `view` puts on screen: the dashboard alone, or the dashboard with the login
      or the registration form stacked over it. */
  datatype Screen = Dashboard | LoginOverlay | RegisterOverlay
}
