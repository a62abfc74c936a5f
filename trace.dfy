/** Sequences of messages fed to `update` one after another, as the iced runtime does,
    and what they do to the state. Each field `update` assigns is read as a cell in a
    table: a message either writes a value into it or leaves it alone, so after any
    sequence a field holds what the last message that wrote it wrote. */
module Trace {
  import opened Types
  import opened App

  /** The fields of the state that some arm of `update` assigns. */
  datatype Field =
    | LoginFormShown | RegisterFormShown | Authenticated
    | Telephone | Password | FirstName | LastName

  datatype Value = Flag(on: bool) | Text(text: string)

  function Get(s: State, f: Field): Value {
    match f
    case LoginFormShown => Flag(s.isLoginFormShown)
    case RegisterFormShown => Flag(s.isRegisterFormShown)
    case Authenticated => Flag(s.userAuthenticated)
    case Telephone => Text(s.user.telephone)
    case Password => Text(s.user.password)
    case FirstName => Text(s.user.firstName)
    case LastName => Text(s.user.lastName)
  }

  /** The value message `m` writes into field `f`, or None when it leaves `f` alone. */
  function Write(m: Message, f: Field): Option<Value> {
    match (m, f)
    case (ShowLogin, LoginFormShown) => Some(Flag(true))
    case (Login, LoginFormShown) => Some(Flag(false))
    case (Logout, Authenticated) => Some(Flag(false))
    case (ShowRegister, RegisterFormShown) => Some(Flag(true))
    case (Register, RegisterFormShown) => Some(Flag(false))
    case (HandleInputTelephone(t), Telephone) => Some(Text(t))
    case (HandleInputPassword(p), Password) => Some(Text(p))
    case (HandleInputFirstName(n), FirstName) => Some(Text(n))
    case (HandleInputLastName(n), LastName) => Some(Text(n))
    case (SwitchFromLoginToRegister, LoginFormShown) => Some(Flag(false))
    case (SwitchFromLoginToRegister, RegisterFormShown) => Some(Flag(true))
    case (SwitchFromRegisterToLogin, LoginFormShown) => Some(Flag(true))
    case (SwitchFromRegisterToLogin, RegisterFormShown) => Some(Flag(false))
    case _ => None
  }

  /** The value of `f` after the messages `ms`, starting from `d`: what the last message
      in `ms` that writes `f` writes, or `d` when none does. */
  function LastWrite(ms: seq<Message>, f: Field, d: Value): Value
    decreases |ms|
  {
    if ms == [] then d
    else match Write(ms[|ms| - 1], f)
      case Some(v) => v
      case None => LastWrite(ms[..|ms| - 1], f, d)
  }

  /** The state after `update` has handled the messages `ms` in order. */
  function Run(s: State, ms: seq<Message>): State
    decreases |ms|
  {
    if ms == [] then s else Run(Step(s, ms[0]).next, ms[1..])
  }

  /** The tasks `update` returns while handling `ms`, one per message. */
  function Tasks(s: State, ms: seq<Message>): seq<Task>
    decreases |ms|
  {
    if ms == [] then [] else [Step(s, ms[0]).task] + Tasks(Step(s, ms[0]).next, ms[1..])
  }

  /** The state is its assigned fields together with the identifier and the pool. */
  lemma {:induction false} StateIsItsFields(a: State, b: State)
    requires forall f :: Get(a, f) == Get(b, f)
    requires a.user.userId == b.user.userId && a.pgpool == b.pgpool
    ensures a == b
  {
    assert Get(a, LoginFormShown) == Get(b, LoginFormShown);
    assert Get(a, RegisterFormShown) == Get(b, RegisterFormShown);
    assert Get(a, Authenticated) == Get(b, Authenticated);
    assert Get(a, Telephone) == Get(b, Telephone);
    assert Get(a, Password) == Get(b, Password);
    assert Get(a, FirstName) == Get(b, FirstName);
    assert Get(a, LastName) == Get(b, LastName);
  }

  /** `Step` agrees with the table: a field the message does not write keeps its value,
      a field it writes then holds the tabled value, the identifier and the pool never
      change, and no task is returned. */
  lemma StepFollowsTable(s: State, m: Message, f: Field)
    ensures Get(Step(s, m).next, f) == (match Write(m, f) case Some(v) => v case None => Get(s, f))
    ensures Step(s, m).next.user.userId == s.user.userId
    ensures Step(s, m).next.pgpool == s.pgpool
    ensures Step(s, m).task == NoTask
  {
  }

  /** Handling one more message after `ms` is one more `Step`. */
  lemma {:induction false} RunAppend(s: State, ms: seq<Message>, m: Message)
    ensures Run(s, ms + [m]) == Step(Run(s, ms), m).next
    decreases |ms|
  {
    if ms == [] {
      assert [m][1..] == [];
    } else {
      assert (ms + [m])[0] == ms[0];
      assert (ms + [m])[1..] == ms[1..] + [m];
      RunAppend(Step(s, ms[0]).next, ms[1..], m);
    }
  }

  /** Handling `m` and then `ms` is one `Step` followed by the run of `ms`. */
  lemma RunCons(s: State, m: Message, ms: seq<Message>)
    ensures Run(s, [m] + ms) == Run(Step(s, m).next, ms)
  {
  }

  /** The identifier and the pool are never changed by any sequence of messages. */
  lemma {:induction false} RunKeepsIdentifierAndPool(s: State, ms: seq<Message>)
    ensures Run(s, ms).user.userId == s.user.userId
    ensures Run(s, ms).pgpool == s.pgpool
    decreases |ms|
  {
    if ms != [] {
      StepSchedulesNothing(s, ms[0]);
      RunKeepsIdentifierAndPool(Step(s, ms[0]).next, ms[1..]);
    }
  }

  /** After any sequence of messages, every assigned field holds its last write. */
  lemma {:induction false} RunIsLastWrite(s: State, ms: seq<Message>, f: Field)
    ensures Get(Run(s, ms), f) == LastWrite(ms, f, Get(s, f))
    decreases |ms|
  {
    if ms != [] {
      var init, m := ms[..|ms| - 1], ms[|ms| - 1];
      assert ms == init + [m];
      RunAppend(s, init, m);
      StepFollowsTable(Run(s, init), m, f);
      RunIsLastWrite(s, init, f);
    }
  }

  /** The last-write characterisation determines the whole state after `ms`. */
  lemma RunIsDetermined(s: State, ms: seq<Message>, t: State)
    requires forall f :: Get(t, f) == LastWrite(ms, f, Get(s, f))
    requires t.user.userId == s.user.userId && t.pgpool == s.pgpool
    ensures Run(s, ms) == t
  {
    forall f ensures Get(Run(s, ms), f) == Get(t, f) {
      RunIsLastWrite(s, ms, f);
    }
    RunKeepsIdentifierAndPool(s, ms);
    StateIsItsFields(Run(s, ms), t);
  }

  /** No message writes `true` into the authentication flag. */
  lemma {:induction false} NothingAuthenticates(ms: seq<Message>)
    ensures LastWrite(ms, Authenticated, Flag(false)) == Flag(false)
    decreases |ms|
  {
    if ms != [] {
      NothingAuthenticates(ms[..|ms| - 1]);
    }
  }

  /** A user who is not authenticated never becomes authenticated, whatever arrives. */
  lemma NeverGainsAuthentication(s: State, ms: seq<Message>)
    requires !s.userAuthenticated
    ensures !Run(s, ms).userAuthenticated
  {
    RunIsLastWrite(s, ms, Authenticated);
    NothingAuthenticates(ms);
  }

  /** However many messages arrive, `update` never returns a task. */
  lemma {:induction false} NoTaskIsEverScheduled(s: State, ms: seq<Message>)
    ensures |Tasks(s, ms)| == |ms|
    ensures forall i :: 0 <= i < |ms| ==> Tasks(s, ms)[i] == NoTask
    decreases |ms|
  {
    if ms != [] {
      StepSchedulesNothing(s, ms[0]);
      NoTaskIsEverScheduled(Step(s, ms[0]).next, ms[1..]);
    }
  }

  /** From the initial state, over any sequence of messages, the user stays
      unauthenticated, without an identifier and without a database pool. */
  lemma StaysSignedOutFromStart(ms: seq<Message>)
    ensures var r := Run(NewIcedLogin().0, ms);
      !r.userAuthenticated && r.user.userId == None && r.pgpool == None
  {
    var s := NewIcedLogin().0;
    NeverGainsAuthentication(s, ms);
    RunKeepsIdentifierAndPool(s, ms);
  }

  predicate IsSwitch(m: Message) {
    m.SwitchFromLoginToRegister? || m.SwitchFromRegisterToLogin?
  }

  /** After a non-empty run of switch messages exactly one form is flagged, the screen
      shows the last switch's target, and the user, authentication and pool are kept. */
  lemma {:induction false} SwitchesKeepExactlyOneForm(s: State, ms: seq<Message>)
    requires ms != []
    requires forall i :: 0 <= i < |ms| ==> IsSwitch(ms[i])
    ensures Run(s, ms).isLoginFormShown != Run(s, ms).isRegisterFormShown
    ensures ScreenOf(Run(s, ms)) ==
      if ms[|ms| - 1].SwitchFromRegisterToLogin? then LoginOverlay else RegisterOverlay
    ensures Run(s, ms).user == s.user
    ensures Run(s, ms).userAuthenticated == s.userAuthenticated
    ensures Run(s, ms).pgpool == s.pgpool
    decreases |ms|
  {
    var init, m := ms[..|ms| - 1], ms[|ms| - 1];
    assert ms == init + [m];
    RunAppend(s, init, m);
    if init != [] {
      SwitchesKeepExactlyOneForm(s, init);
    } else {
      assert Run(s, init) == s;
    }
  }

  /** Showing the login form and then the registration form leaves both flagged: the
      login overlay is shown, and submitting it uncovers the registration form. */
  lemma ShowLoginThenShowRegisterFlagsBoth()
    ensures var r := Run(NewIcedLogin().0, [ShowLogin, ShowRegister]);
      r.isLoginFormShown && r.isRegisterFormShown && ScreenOf(r) == LoginOverlay
    ensures ScreenOf(Run(NewIcedLogin().0, [ShowLogin, ShowRegister, Login])) == RegisterOverlay
  {
  }

  /** Filling the registration form and submitting it, even with a successful result,
      types the details into the user but assigns no identifier and authenticates nobody. */
  lemma RegistrationLeavesUserUnsaved(first: string, last: string, phone: string, secret: string, saved: User)
    ensures var ms := [ShowRegister, HandleInputFirstName(first), HandleInputLastName(last),
                       HandleInputTelephone(phone), HandleInputPassword(secret), Register,
                       RegistrationResult(Ok(saved))];
      Run(NewIcedLogin().0, ms) ==
        State(false, false, User(None, first, last, phone, secret), false, None)
  {
    var s0 := NewIcedLogin().0;
    var s1 := Step(s0, ShowRegister).next;
    var s2 := Step(s1, HandleInputFirstName(first)).next;
    var s3 := Step(s2, HandleInputLastName(last)).next;
    var s4 := Step(s3, HandleInputTelephone(phone)).next;
    var s5 := Step(s4, HandleInputPassword(secret)).next;
    var s6 := Step(s5, Register).next;
    RunCons(s0, ShowRegister, [HandleInputFirstName(first), HandleInputLastName(last),
                               HandleInputTelephone(phone), HandleInputPassword(secret), Register,
                               RegistrationResult(Ok(saved))]);
    RunCons(s1, HandleInputFirstName(first), [HandleInputLastName(last), HandleInputTelephone(phone),
                                              HandleInputPassword(secret), Register,
                                              RegistrationResult(Ok(saved))]);
    RunCons(s2, HandleInputLastName(last), [HandleInputTelephone(phone), HandleInputPassword(secret),
                                            Register, RegistrationResult(Ok(saved))]);
    RunCons(s3, HandleInputTelephone(phone), [HandleInputPassword(secret), Register,
                                              RegistrationResult(Ok(saved))]);
    RunCons(s4, HandleInputPassword(secret), [Register, RegistrationResult(Ok(saved))]);
    RunCons(s5, Register, [RegistrationResult(Ok(saved))]);
    RunCons(s6, RegistrationResult(Ok(saved)), []);
  }
}
