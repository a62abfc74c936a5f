/** The `IcedLogin` application: its state, its initial value, the message dispatcher
    `update` (a specification function and the class method that performs it in
    place) and the rule by which `view` picks a screen. */
module App {
  import opened Types

  /** The value of an `IcedLogin` record. */
  datatype State = State(
    isLoginFormShown: bool,
    isRegisterFormShown: bool,
    user: User,
    userAuthenticated: bool,
    pgpool: Option<PgPool>)

  /** The result of one `update`: the state it leaves and the task it returns. */
  datatype Transition = Transition(next: State, task: Task)

  /** `IcedLogin::new`: the state the application starts in and the task it starts with. */
  function NewIcedLogin(): (r: (State, Task))
    ensures !r.0.isLoginFormShown && !r.0.isRegisterFormShown
    ensures !r.0.userAuthenticated && r.0.pgpool == None
    ensures r.0.user == NewUser()
    ensures r.1 == NoTask
  {
    (State(false, false, NewUser(), false, None), NoTask)
  }

  /** What `update` does with one message, arm by arm. */
  function Step(s: State, m: Message): Transition {
    match m
    case ShowLogin => Transition(s.(isLoginFormShown := true), NoTask)
    case Login => Transition(s.(isLoginFormShown := false), NoTask)
    case LoginResult(_) => Transition(s, NoTask)
    case Logout => Transition(s.(userAuthenticated := false), NoTask)
    case ShowRegister => Transition(s.(isRegisterFormShown := true), NoTask)
    case Register => Transition(s.(isRegisterFormShown := false), NoTask)
    case RegistrationResult(_) => Transition(s, NoTask)
    case HandleInputTelephone(t) => Transition(s.(user := s.user.(telephone := t)), NoTask)
    case HandleInputPassword(p) => Transition(s.(user := s.user.(password := p)), NoTask)
    case HandleInputFirstName(f) => Transition(s.(user := s.user.(firstName := f)), NoTask)
    case HandleInputLastName(l) => Transition(s.(user := s.user.(lastName := l)), NoTask)
    case SwitchFromLoginToRegister =>
      Transition(s.(isLoginFormShown := false, isRegisterFormShown := true), NoTask)
    case SwitchFromRegisterToLogin =>
      Transition(s.(isRegisterFormShown := false, isLoginFormShown := true), NoTask)
  }

  /** The screen `view` builds: the login form wins whenever it is flagged, even when the
      registration flag is set as well. */
  function ScreenOf(s: State): (sc: Screen)
    ensures sc == LoginOverlay <==> s.isLoginFormShown
    ensures sc == RegisterOverlay <==> !s.isLoginFormShown && s.isRegisterFormShown
    ensures sc == Dashboard <==> !s.isLoginFormShown && !s.isRegisterFormShown
  {
    if s.isLoginFormShown then LoginOverlay
    else if s.isRegisterFormShown then RegisterOverlay
    else Dashboard
  }

  /** The application object the iced runtime owns and hands to `update` by `&mut`. */
  class IcedLogin {
    var isLoginFormShown: bool
    var isRegisterFormShown: bool
    var user: User
    var userAuthenticated: bool
    var pgpool: Option<PgPool>

    /** The current value of the record. */
    function Snapshot(): State
      reads this
    {
      State(isLoginFormShown, isRegisterFormShown, user, userAuthenticated, pgpool)
    }

    /** The object `run_with(IcedLogin::new)` installs. */
    constructor ()
      ensures Snapshot() == NewIcedLogin().0
    {
      isLoginFormShown := false;
      isRegisterFormShown := false;
      user := NewUser();
      userAuthenticated := false;
      pgpool := None;
    }

    /** `IcedLogin::update`: applies one message to the fields and returns the task. */
    method Update(message: Message) returns (task: Task)
      modifies this
      ensures Snapshot() == Step(old(Snapshot()), message).next
      ensures task == Step(old(Snapshot()), message).task
      ensures task == NoTask
      ensures pgpool == old(pgpool) && user.userId == old(user.userId)
      ensures userAuthenticated ==> old(userAuthenticated)
    {
      match message {
        case ShowLogin =>
          isLoginFormShown := true;
        case Login =>
          isLoginFormShown := false;
        case LoginResult(_) =>
        case Logout =>
          userAuthenticated := false;
        case ShowRegister =>
          isRegisterFormShown := true;
        case Register =>
          isRegisterFormShown := false;
        case RegistrationResult(_) =>
        case HandleInputTelephone(t) =>
          user := user.(telephone := t);
        case HandleInputPassword(p) =>
          user := user.(password := p);
        case HandleInputFirstName(f) =>
          user := user.(firstName := f);
        case HandleInputLastName(l) =>
          user := user.(lastName := l);
        case SwitchFromLoginToRegister =>
          isLoginFormShown := false;
          isRegisterFormShown := true;
        case SwitchFromRegisterToLogin =>
          isRegisterFormShown := false;
          isLoginFormShown := true;
      }
      task := NoTask;
    }
  }

  // Properties of one step.

  /** Showing the login form raises its flag and nothing else: the registration flag is
      left as it was, and showing twice is showing once. */
  lemma ShowLoginRaisesOnlyItsFlag(s: State)
    ensures Step(s, ShowLogin).next == s.(isLoginFormShown := true)
    ensures Step(Step(s, ShowLogin).next, ShowLogin) == Step(s, ShowLogin)
  {
  }

  /** Showing the registration form raises its flag and nothing else: the login flag is
      left as it was, and showing twice is showing once. */
  lemma ShowRegisterRaisesOnlyItsFlag(s: State)
    ensures Step(s, ShowRegister).next == s.(isRegisterFormShown := true)
    ensures Step(Step(s, ShowRegister).next, ShowRegister) == Step(s, ShowRegister)
  {
  }

  /** Submitting the login form hides it and changes nothing else. */
  lemma LoginHidesOnlyItsForm(s: State)
    ensures Step(s, Login).next == s.(isLoginFormShown := false)
  {
  }

  /** Submitting the registration form hides it and changes nothing else. */
  lemma RegisterHidesOnlyItsForm(s: State)
    ensures Step(s, Register).next == s.(isRegisterFormShown := false)
  {
  }

  /** Either switch leaves exactly one form flagged, the target one, and keeps the user,
      the authentication flag and the pool. */
  lemma SwitchShowsExactlyTarget(s: State)
    ensures var t := Step(s, SwitchFromLoginToRegister).next;
      !t.isLoginFormShown && t.isRegisterFormShown && ScreenOf(t) == RegisterOverlay &&
      t.user == s.user && t.userAuthenticated == s.userAuthenticated && t.pgpool == s.pgpool
    ensures var t := Step(s, SwitchFromRegisterToLogin).next;
      t.isLoginFormShown && !t.isRegisterFormShown && ScreenOf(t) == LoginOverlay &&
      t.user == s.user && t.userAuthenticated == s.userAuthenticated && t.pgpool == s.pgpool
  {
  }

  /** Each input message overwrites exactly its own field of the user with the text it
      carries. */
  lemma InputOverwritesOneField(s: State, text: string)
    ensures Step(s, HandleInputTelephone(text)).next == s.(user := s.user.(telephone := text))
    ensures Step(s, HandleInputPassword(text)).next == s.(user := s.user.(password := text))
    ensures Step(s, HandleInputFirstName(text)).next == s.(user := s.user.(firstName := text))
    ensures Step(s, HandleInputLastName(text)).next == s.(user := s.user.(lastName := text))
  {
  }

  /** A login result, success or failure, changes nothing. */
  lemma LoginResultChangesNothing(s: State, r: UserResult)
    ensures Step(s, LoginResult(r)).next == s
  {
  }

  /** A registration result, success or failure, changes nothing: in particular no
      identifier is taken from it. */
  lemma RegistrationResultChangesNothing(s: State, r: UserResult)
    ensures Step(s, RegistrationResult(r)).next == s
  {
  }

  /** Logging out clears the authentication flag and keeps every field of the user. */
  lemma LogoutKeepsUser(s: State)
    ensures Step(s, Logout).next == s.(userAuthenticated := false)
  {
  }

  /** Every message is idempotent: applying it twice leaves what applying it once does. */
  lemma StepIsIdempotent(s: State, m: Message)
    ensures Step(Step(s, m).next, m) == Step(s, m)
  {
  }

  /** No arm schedules a task, authenticates, assigns an identifier or touches the pool. */
  lemma StepSchedulesNothing(s: State, m: Message)
    ensures Step(s, m).task == NoTask
    ensures Step(s, m).next.userAuthenticated ==> s.userAuthenticated
    ensures Step(s, m).next.user.userId == s.user.userId
    ensures Step(s, m).next.pgpool == s.pgpool
  {
  }

  /** The application opens on the bare dashboard. */
  lemma StartsOnDashboard()
    ensures ScreenOf(NewIcedLogin().0) == Dashboard
  {
  }
}
