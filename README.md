# Iced login form: the message-driven state machine

This project models the core of the iced login form example application
(`src/main.rs`). The application keeps one `IcedLogin` record: two flags that say
whether the login and registration forms are shown, the `User` the forms edit, an
`authenticated` flag and an optional Postgres pool. The iced runtime feeds it
`Message`s one at a time through `IcedLogin::update`. That method assigns some
fields in place and returns a `Task`. `view` then chooses a screen from the two form
flags.

Layout:

- `types.dfy` (module `Types`) holds the values: `User` and `User::new`, `Error`,
  `Message`, the task token and the three screens. The task type is `NoTask` (Rust's
  `Task::none()`) or `Perform(op)`, where `op` names one of the file's asynchronous
  database functions. Because a real task can be represented, "no task is ever
  scheduled" is a statement that could fail.
- `app.dfy` (module `App`) holds:
  - `State`, the value of an `IcedLogin` record, and `NewIcedLogin` (`IcedLogin::new`);
  - `Step`, the specification of `update`, arm by arm;
  - `ScreenOf`, the if/else at the end of `view`;
  - the class `IcedLogin`, whose fields are the record's fields. Its `Update` method
    `modifies this` and is proved equal to `Step` on the class's `Snapshot()`.
  The single-step lemmas are in this module too.
- `trace.dfy` (module `Trace`) runs `update` over message sequences. It also gives an
  independent table, `Write`, of which field each message writes and with what
  value. Its lemmas prove:
  - `Step` follows the table;
  - after any sequence, each field holds the last value written to it;
  - starting from `IcedLogin::new`, the user is never authenticated, never gets an
    identifier and never gets a pool;
  - runs of switch messages leave exactly one form shown.

The model follows what the code does, and the code stops short of a finished login
application:

- `ShowLogin`/`ShowRegister` do not clear the other form's flag, so both flags can be
  set at once. `ShowLoginThenShowRegisterFlagsBoth` exhibits this. The "at most one
  form" rule holds only after the switch messages (`SwitchesKeepExactlyOneForm`).
- `Logout` does not reset the user.
- The result messages are ignored, so a successful registration assigns no identifier
  (`RegistrationLeavesUserUnsaved`).
- No arm starts a database operation.

## Model

| member | source | states |
|---|---|---|
| Types.NewUser | src/main.rs:29-39 | the new user has no identifier and all four text fields empty |
| App.NewIcedLogin | src/main.rs:78-90 | the initial record has both form flags false, is not authenticated, has no pool and holds `User::new()`; the returned task is `Task::none()` |
| App.StartsOnDashboard | src/main.rs:78-221 | the initial record is displayed as the bare dashboard |
| App.IcedLogin.constructor | src/main.rs:78-90 | the object the runtime starts with has exactly the fields of `IcedLogin::new` |
| App.IcedLogin.Update | src/main.rs:92-151 | the new fields are `Step` of the old ones, the returned task is `Task::none()`, the pool and identifier are unchanged, and authentication is never gained |
| App.ShowLoginRaisesOnlyItsFlag | src/main.rs:94-97 | `ShowLogin` sets the login flag and changes nothing else, not even the registration flag; it is idempotent |
| App.LoginHidesOnlyItsForm | src/main.rs:98-101 | `Login` clears only the login flag |
| App.LoginResultChangesNothing | src/main.rs:102-105 | `LoginResult(_)` leaves the whole state unchanged, whether it carries success or an error |
| App.LogoutKeepsUser | src/main.rs:106-109 | `Logout` clears only the authentication flag and keeps every field of the user |
| App.ShowRegisterRaisesOnlyItsFlag | src/main.rs:110-113 | `ShowRegister` sets the registration flag and changes nothing else, not even the login flag; it is idempotent |
| App.RegisterHidesOnlyItsForm | src/main.rs:114-117 | `Register` clears only the registration flag |
| App.RegistrationResultChangesNothing | src/main.rs:118-121 | `RegistrationResult(_)` leaves the whole state unchanged, so no identifier is taken from it |
| App.InputOverwritesOneField | src/main.rs:122-139 | each `HandleInput*` message overwrites its own user field with the carried text and nothing else |
| App.SwitchShowsExactlyTarget | src/main.rs:140-149 | after either switch, only the target form's flag is set and the screen is that form; user, authentication and pool are kept |
| App.StepIsIdempotent | src/main.rs:92-151 | handling any message twice in a row gives the same state and task as handling it once |
| App.StepSchedulesNothing | src/main.rs:92-151 | no arm returns a task other than `Task::none()`, sets authentication, changes the user's identifier or touches the pool |
| App.ScreenOf | src/main.rs:215-221 | the login overlay is shown exactly when the login flag is set, whatever the registration flag says; the registration overlay exactly when only the registration flag is set; the bare dashboard exactly when neither is set |
| Trace.StepFollowsTable | src/main.rs:92-151 | `update` leaves a field alone unless the independent write table says the message writes it, and a field it writes then holds the tabled value; the identifier and the pool are kept and no task is returned |
| Trace.RunKeepsIdentifierAndPool | src/main.rs:92-151 | no sequence of messages changes the user's identifier or the pool |
| Trace.RunIsLastWrite | src/main.rs:92-151 | after any message sequence, each form flag, the authentication flag and each user text field hold the value written by the last message that writes them, or their old value if none does |
| Trace.RunIsDetermined | src/main.rs:92-151 | this last-write description, together with the unchanged identifier and pool, fixes the whole state after a sequence |
| Trace.NothingAuthenticates | src/main.rs:106-107 | in the write table the only value any message writes into the authentication flag is `false`, so its last write from a false start is false |
| Trace.NeverGainsAuthentication | src/main.rs:92-151 | from any unauthenticated state, no sequence of messages leaves the user authenticated |
| Trace.NoTaskIsEverScheduled | src/main.rs:92-151 | over any message sequence, `update` returns one task per message, and every one is `Task::none()` |
| Trace.StaysSignedOutFromStart | src/main.rs:78-151 | from `IcedLogin::new`, after any message sequence, the user is unauthenticated, has no identifier and there is no pool |
| Trace.SwitchesKeepExactlyOneForm | src/main.rs:140-149 | after any non-empty run of switch messages exactly one form flag is set, the screen is the last switch's target, and user, authentication and pool are unchanged |
| Trace.ShowLoginThenShowRegisterFlagsBoth | src/main.rs:92-221 | `ShowLogin` then `ShowRegister` from the start leaves both flags set with the login overlay shown; a following `Login` uncovers the registration overlay |
| Trace.RegistrationLeavesUserUnsaved | src/main.rs:110-139 | showing the registration form, typing the four fields, registering and receiving a successful result ends on the dashboard with the typed user, no identifier and no authentication |

## Left out

- Widget construction in `view`, `show_form`, `theme` and `main`: these are iced layout and the application runner. Only the choice of screen at the end of `view` is modelled.
- `connect_to_db`, `save_user`, `authenticate_user` and `get_all_users`: their bodies are `todo!()` and they are Postgres I/O. Only their names appear, as the operations a task could perform, and no arm performs them.
- `PgPool` internals and the iced `Task` runtime: the pool is an opaque handle, and a task is only its kind.
- The UUID type is a 128-bit value with no structure. Nothing in the core creates or inspects one.
- The derived `Debug`, `Clone` and `Default` implementations are not modelled. Values in Dafny are copied on assignment, which is what `Clone` gives the Rust code.
