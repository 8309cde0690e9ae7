/** The login and registration screen (UI/login_ui.py): a step machine
    menu -> login username -> login password, or menu -> register username
    -> register password -> confirm, which ends by handing the signed-in
    account to the main menu.  The account table, the password check and
    account creation are services the screen calls; here they are
    parameters. */
module LoginScreen {
  import opened Common

  const MIN_USERNAME_LEN: int := 3
  const MIN_PASSWORD_LEN: int := 6

  const MENU_HINT: string := "Please type Login, Register, or Quit."
  const BAD_CREDENTIALS: string := "Invalid username or password."
  const USERNAME_TOO_SHORT: string := "Username must be at least 3 characters."
  const USERNAME_CHARACTERS: string := "Username may only contain letters, digits, and underscores."
  const USERNAME_TAKEN: string := "That username is already taken."
  const PASSWORD_TOO_SHORT: string := "Password must be at least 6 characters."
  const PASSWORD_MISMATCH: string := "Passwords do not match. Try again."

  datatype Step = Menu | LoginUsername | LoginPassword | RegisterUsername | RegisterPassword | RegisterConfirm

  /** The row of the account table the screen reads. */
  datatype Account = Account(id: int, username: string, passwordHash: string)

  /** The account handed to the main menu by `_finish_auth`. */
  datatype Session = Session(accountId: int, username: string)

  /** The fields of the screen. */
  datatype LoginState = LoginState(step: Step, error: string, info: string, username: string, password: string,
                                   signedIn: Option<Session>)

  /** The account table: the `username` column is `UNIQUE COLLATE NOCASE`,
      so the table is keyed by the folded name (NOCASE folds the ASCII
      letters only, as `Lower` does), and each row keeps the name as it
      was registered. */
  ghost predicate TableKeyed(db: map<string, Account>) {
    forall k :: k in db ==> Lower(db[k].username) == k
  }

  /** `get_account(name)`: `WHERE username = ?` compares under the
      column's NOCASE collation, so the row found is the one whose name
      folds to the same text. */
  function GetAccount(db: map<string, Account>, name: string): Option<Account> {
    if Lower(name) in db then Some(db[Lower(name)]) else None
  }

  /** An account is found under any spelling of its name that differs
      only in the case of ASCII letters, and under no other: the account
      created as "Alice" is found by "alice". */
  lemma AccountFoundAnyCase(db: map<string, Account>, name: string, acc: Account)
    requires TableKeyed(db) && acc in db.Values
    ensures GetAccount(db, name) == Some(acc) <==> Lower(name) == Lower(acc.username)
  {
    var k :| k in db && db[k] == acc;
  }

  predicate UsernameChar(c: char) {
    ('a' <= c <= 'z') || ('A' <= c <= 'Z') || ('0' <= c <= '9') || c == '_'
  }

  /** `USERNAME_PATTERN.match(name)` for `^[a-zA-Z0-9_]+$`. */
  predicate UsernamePattern(name: string) {
    |name| > 0 && forall i :: 0 <= i < |name| ==> UsernameChar(name[i])
  }

  /** A username registration accepts, before looking at the table. */
  predicate UsernameOk(name: string) {
    |name| >= MIN_USERNAME_LEN && UsernamePattern(name)
  }

  // -----------------------------------------------------------------------
  // The handlers, as transitions of the screen's fields
  // -----------------------------------------------------------------------

  /** `_handle_menu` on stripped, non-blank text `t`.  The quit choice calls
      a method the screen does not have; it is not modelled and leaves the
      fields unchanged. */
  function MenuNext(s: LoginState, t: string): (r: LoginState)
    requires s.step == Menu
    ensures LoginInv(r)
  {
    if LoginChoice(t) then s.(step := LoginUsername, error := "", info := "")
    else if RegisterChoice(t) then s.(step := RegisterUsername, error := "", info := "")
    else if QuitChoice(t) then s
    else s.(error := MENU_HINT)
  }

  /** The menu words, compared without case; the digits as typed. */
  predicate LoginChoice(t: string) {
    Lower(t) == "login" || Lower(t) == "log-in" || t == "1"
  }

  predicate RegisterChoice(t: string) {
    Lower(t) == "register" || t == "2"
  }

  predicate QuitChoice(t: string) {
    Lower(t) == "quit" || t == "3"
  }

  function LoginUsernameNext(s: LoginState, t: string): (r: LoginState)
    requires s.step == LoginUsername
    ensures LoginInv(s) ==> LoginInv(r)
  {
    s.(username := t, error := "", step := LoginPassword)
  }

  function LoginPasswordNext(s: LoginState, t: string, db: map<string, Account>, verify: (string, string) -> bool): (r: LoginState)
    requires s.step == LoginPassword
    ensures LoginInv(s) ==> LoginInv(r)
  {
    var account := GetAccount(db, s.username);
    if account.None? || !verify(t, account.value.passwordHash) then
      s.(error := BAD_CREDENTIALS, password := "", step := LoginUsername)
    else
      s.(signedIn := Some(Session(account.value.id, account.value.username)))
  }

  function RegisterUsernameNext(s: LoginState, t: string, db: map<string, Account>): (r: LoginState)
    requires s.step == RegisterUsername
    ensures LoginInv(s) ==> LoginInv(r)
  {
    if |t| < MIN_USERNAME_LEN then s.(error := USERNAME_TOO_SHORT)
    else if !UsernamePattern(t) then s.(error := USERNAME_CHARACTERS)
    else if GetAccount(db, t).Some? then s.(error := USERNAME_TAKEN)
    else s.(username := t, error := "", step := RegisterPassword)
  }

  function RegisterPasswordNext(s: LoginState, t: string): (r: LoginState)
    requires s.step == RegisterPassword
    ensures LoginInv(s) ==> LoginInv(r)
  {
    if |t| < MIN_PASSWORD_LEN then s.(error := PASSWORD_TOO_SHORT)
    else s.(password := t, error := "", step := RegisterConfirm)
  }

  /** `created` is what `create_account` gives: the new account id, or
      None when the insert violates the unique username. */
  function RegisterConfirmNext(s: LoginState, t: string, created: Option<int>): (r: LoginState)
    requires s.step == RegisterConfirm
    ensures LoginInv(s) ==> LoginInv(r)
  {
    if t != s.password then s.(error := PASSWORD_MISMATCH, password := "", step := RegisterPassword)
    else if created.None? then s.(error := USERNAME_TAKEN, step := RegisterUsername)
    else s.(signedIn := Some(Session(created.value, s.username)))
  }

  /** `_handle_input`: strip the text, ignore it when blank, otherwise pass
      it to the handler of the current step. */
  function Next(s: LoginState, text: string, db: map<string, Account>, verify: (string, string) -> bool,
                created: Option<int>): LoginState
  {
    var t := Strip(text);
    if t == [] then s
    else match s.step
      case Menu => MenuNext(s, t)
      case LoginUsername => LoginUsernameNext(s, t)
      case LoginPassword => LoginPasswordNext(s, t, db, verify)
      case RegisterUsername => RegisterUsernameNext(s, t, db)
      case RegisterPassword => RegisterPasswordNext(s, t)
      case RegisterConfirm => RegisterConfirmNext(s, t, created)
  }

  // -----------------------------------------------------------------------
  // What the step machine promises
  // -----------------------------------------------------------------------

  /** Blank input changes nothing, at any step. */
  lemma BlankInputIgnored(s: LoginState, text: string, db: map<string, Account>, verify: (string, string) -> bool,
                          created: Option<int>)
    requires IsBlank(text)
    ensures Next(s, text, db, verify, created) == s
  {
  }

  /** From the menu: the login words go to the login username step, the
      register words to the register username step, both clearing the
      error and the notice; any other text except the quit words sets the
      hint and stays. */
  lemma MenuChoices(s: LoginState, text: string, db: map<string, Account>, verify: (string, string) -> bool,
                    created: Option<int>)
    requires s.step == Menu && !IsBlank(text)
    ensures var t, r := Strip(text), Next(s, text, db, verify, created);
      && (r.step == LoginUsername <==> LoginChoice(t))
      && (r.step == RegisterUsername <==> !LoginChoice(t) && RegisterChoice(t))
      && (r.step != Menu ==> r == s.(step := r.step, error := "", info := ""))
      && (r.step == Menu && !QuitChoice(t) ==> r == s.(error := MENU_HINT))
  {
  }

  /** The login flow: any name is taken and the password is asked for; the
      password signs in exactly when the account exists and the password
      checks out against its hash, and otherwise the flow goes back to the
      username with an error. */
  lemma LoginFlow(s: LoginState, text: string, db: map<string, Account>, verify: (string, string) -> bool,
                  created: Option<int>)
    requires !IsBlank(text)
    ensures s.step == LoginUsername ==>
      Next(s, text, db, verify, created) == s.(username := Strip(text), error := "", step := LoginPassword)
    ensures s.step == LoginPassword && s.signedIn.None? ==>
      var r := Next(s, text, db, verify, created);
      && (r.signedIn.Some? <==> Lower(s.username) in db && verify(Strip(text), db[Lower(s.username)].passwordHash))
      && (r.signedIn.Some? ==>
            r.signedIn.value == Session(db[Lower(s.username)].id, db[Lower(s.username)].username) && r.step == s.step)
      && (r.signedIn.None? ==> r.step == LoginUsername && r.error == BAD_CREDENTIALS && r.password == "")
  {
  }

  /** A registration username moves the flow on exactly when it is long
      enough, matches the pattern and is not taken; otherwise the step is
      kept with an error. */
  lemma RegisterUsernameRule(s: LoginState, text: string, db: map<string, Account>, verify: (string, string) -> bool,
                             created: Option<int>)
    requires s.step == RegisterUsername && !IsBlank(text)
    ensures var t, r := Strip(text), Next(s, text, db, verify, created);
      && (r.step == RegisterPassword <==> UsernameOk(t) && Lower(t) !in db)
      && (r.step == RegisterPassword ==> r.username == t && r.error == "")
      && (r.step != RegisterPassword ==> r.step == RegisterUsername && r.error != "" && r.username == s.username)
  {
  }

  /** Registration refuses a name that differs only in letter case from a
      registered one. */
  lemma RegisterRefusesCaseVariant(s: LoginState, text: string, db: map<string, Account>,
                                   verify: (string, string) -> bool, created: Option<int>, acc: Account)
    requires TableKeyed(db) && acc in db.Values
    requires s.step == RegisterUsername && !IsBlank(text) && Lower(Strip(text)) == Lower(acc.username)
    ensures Next(s, text, db, verify, created).step == RegisterUsername
    ensures UsernameOk(Strip(text)) ==> Next(s, text, db, verify, created).error == USERNAME_TAKEN
  {
    AccountFoundAnyCase(db, Strip(text), acc);
  }

  /** Login finds the account under any spelling of its name that differs
      only in letter case, and signs in exactly when the password checks
      out against that account's hash. */
  lemma LoginAnyCase(s: LoginState, text: string, db: map<string, Account>,
                     verify: (string, string) -> bool, created: Option<int>, acc: Account)
    requires TableKeyed(db) && acc in db.Values
    requires s.step == LoginPassword && s.signedIn.None? && !IsBlank(text) && Lower(s.username) == Lower(acc.username)
    ensures Next(s, text, db, verify, created).signedIn.Some? <==> verify(Strip(text), acc.passwordHash)
    ensures verify(Strip(text), acc.passwordHash) ==>
      Next(s, text, db, verify, created).signedIn == Some(Session(acc.id, acc.username))
  {
    AccountFoundAnyCase(db, s.username, acc);
  }

  /** A password shorter than six keeps the step; a long enough one is
      stored and confirmation is asked for; a confirmation that differs
      clears the stored password and asks again. */
  lemma RegisterPasswordRule(s: LoginState, text: string, db: map<string, Account>, verify: (string, string) -> bool,
                             created: Option<int>)
    requires !IsBlank(text)
    ensures s.step == RegisterPassword ==>
      var t, r := Strip(text), Next(s, text, db, verify, created);
      && (r.step == RegisterConfirm <==> |t| >= MIN_PASSWORD_LEN)
      && (r.step == RegisterConfirm ==> r.password == t)
      && (r.step != RegisterConfirm ==> r == s.(error := PASSWORD_TOO_SHORT))
    ensures s.step == RegisterConfirm && Strip(text) != s.password ==>
      Next(s, text, db, verify, created) == s.(error := PASSWORD_MISMATCH, password := "", step := RegisterPassword)
  {
  }

  /** What the screen keeps: on the two password steps of registration the
      username has passed the checks, and while confirming, the stored
      password is long enough. */
  ghost predicate LoginInv(s: LoginState) {
    && (s.step == RegisterPassword || s.step == RegisterConfirm ==> UsernameOk(s.username))
    && (s.step == RegisterConfirm ==> |s.password| >= MIN_PASSWORD_LEN)
  }

  /** Every input keeps the invariant. */
  lemma NextKeepsInv(s: LoginState, text: string, db: map<string, Account>, verify: (string, string) -> bool,
                     created: Option<int>)
    requires LoginInv(s)
    ensures LoginInv(Next(s, text, db, verify, created))
  {
  }

  /** A registration signs in only with a username that passed the checks
      and a password of at least six characters typed twice alike. */
  lemma RegistrationSignsInChecked(s: LoginState, text: string, db: map<string, Account>,
                                   verify: (string, string) -> bool, created: Option<int>)
    requires LoginInv(s) && s.step == RegisterConfirm && s.signedIn.None?
    requires Next(s, text, db, verify, created).signedIn.Some?
    ensures UsernameOk(s.username) && Strip(text) == s.password && |s.password| >= MIN_PASSWORD_LEN
    ensures created.Some? && Next(s, text, db, verify, created).signedIn == Some(Session(created.value, s.username))
  {
  }

  /** A run of inputs from a state satisfying the invariant. */
  function Run(s: LoginState, inputs: seq<string>, db: map<string, Account>, verify: (string, string) -> bool,
               created: Option<int>): LoginState
    decreases |inputs|
  {
    if inputs == [] then s else Run(Next(s, inputs[0], db, verify, created), inputs[1..], db, verify, created)
  }

  /** The invariant holds after any run of inputs from the start state. */
  lemma {:induction false} RunKeepsInv(s: LoginState, inputs: seq<string>, db: map<string, Account>,
                                       verify: (string, string) -> bool, created: Option<int>)
    requires LoginInv(s)
    ensures LoginInv(Run(s, inputs, db, verify, created))
    decreases |inputs|
  {
    if inputs != [] {
      NextKeepsInv(s, inputs[0], db, verify, created);
      RunKeepsInv(Next(s, inputs[0], db, verify, created), inputs[1..], db, verify, created);
    }
  }

  /** `'*' * n`. */
  function Stars(n: nat): (r: string)
    ensures |r| == n && forall i :: 0 <= i < n ==> r[i] == '*'
  {
    if n == 0 then "" else Stars(n - 1) + "*"
  }

  predicate PasswordStep(step: Step) {
    step == LoginPassword || step == RegisterPassword || step == RegisterConfirm
  }

  /** The input line as shown: masked with one `*` per character on the
      three password steps, as typed elsewhere. */
  function DisplayBuffer(step: Step, inputBuffer: string): (r: string)
    ensures |r| == |inputBuffer|
    ensures PasswordStep(step) ==> forall i :: 0 <= i < |r| ==> r[i] == '*'
    ensures !PasswordStep(step) ==> r == inputBuffer
  {
    if PasswordStep(step) then Stars(|inputBuffer|) else inputBuffer
  }

  // -----------------------------------------------------------------------
  // The screen
  // -----------------------------------------------------------------------

  class LoginUI {
    var step: Step
    var error: string
    var info: string
    var username: string
    var password: string
    var signedIn: Option<Session>

    ghost function Snapshot(): LoginState
      reads this
    {
      LoginState(step, error, info, username, password, signedIn)
    }

    /** A new screen shows the menu with no error, notice or stored
        credentials. */
    constructor ()
      ensures Snapshot() == LoginState(Menu, "", "", "", "", None)
      ensures LoginInv(Snapshot())
    {
      step := Menu;
      error := "";
      info := "";
      username := "";
      password := "";
      signedIn := None;
    }

    /** `_handle_input`, with the account table `db`, the password check
        `verify` and the outcome `created` of an account insert. */
    method HandleInput(text: string, db: map<string, Account>, verify: (string, string) -> bool, created: Option<int>)
      modifies this
      ensures Snapshot() == Next(old(Snapshot()), text, db, verify, created)
    {
      var t := Strip(text);
      if t == [] {
        return;
      }
      match step
      case Menu => HandleMenu(t);
      case LoginUsername => HandleLoginUsername(t);
      case LoginPassword => HandleLoginPassword(t, db, verify);
      case RegisterUsername => HandleRegisterUsername(t, db);
      case RegisterPassword => HandleRegisterPassword(t);
      case RegisterConfirm => HandleRegisterConfirm(t, created);
    }

    method HandleMenu(t: string)
      requires step == Menu
      modifies this
      ensures Snapshot() == MenuNext(old(Snapshot()), t)
    {
      if LoginChoice(t) {
        step := LoginUsername;
        error := "";
        info := "";
      } else if RegisterChoice(t) {
        step := RegisterUsername;
        error := "";
        info := "";
      } else if QuitChoice(t) {
      } else {
        error := MENU_HINT;
      }
    }

    method HandleLoginUsername(t: string)
      requires step == LoginUsername
      modifies this
      ensures Snapshot() == LoginUsernameNext(old(Snapshot()), t)
    {
      username := t;
      error := "";
      step := LoginPassword;
    }

    method HandleLoginPassword(t: string, db: map<string, Account>, verify: (string, string) -> bool)
      requires step == LoginPassword
      modifies this
      ensures Snapshot() == LoginPasswordNext(old(Snapshot()), t, db, verify)
    {
      var account := GetAccount(db, username);
      if account.None? || !verify(t, account.value.passwordHash) {
        error := BAD_CREDENTIALS;
        password := "";
        step := LoginUsername;
        return;
      }
      FinishAuth(account.value.id, account.value.username);
    }

    method HandleRegisterUsername(t: string, db: map<string, Account>)
      requires step == RegisterUsername
      modifies this
      ensures Snapshot() == RegisterUsernameNext(old(Snapshot()), t, db)
    {
      if |t| < MIN_USERNAME_LEN {
        error := USERNAME_TOO_SHORT;
        return;
      }
      if !UsernamePattern(t) {
        error := USERNAME_CHARACTERS;
        return;
      }
      if GetAccount(db, t).Some? {
        error := USERNAME_TAKEN;
        return;
      }
      username := t;
      error := "";
      step := RegisterPassword;
    }

    method HandleRegisterPassword(t: string)
      requires step == RegisterPassword
      modifies this
      ensures Snapshot() == RegisterPasswordNext(old(Snapshot()), t)
    {
      if |t| < MIN_PASSWORD_LEN {
        error := PASSWORD_TOO_SHORT;
        return;
      }
      password := t;
      error := "";
      step := RegisterConfirm;
    }

    method HandleRegisterConfirm(t: string, created: Option<int>)
      requires step == RegisterConfirm
      modifies this
      ensures Snapshot() == RegisterConfirmNext(old(Snapshot()), t, created)
    {
      if t != password {
        error := PASSWORD_MISMATCH;
        password := "";
        step := RegisterPassword;
        return;
      }
      if created.None? {
        error := USERNAME_TAKEN;
        step := RegisterUsername;
        return;
      }
      FinishAuth(created.value, username);
    }

    /** `_finish_auth`: hand the account to the main menu. */
    method FinishAuth(accountId: int, name: string)
      modifies this`signedIn
      ensures signedIn == Some(Session(accountId, name))
    {
      signedIn := Some(Session(accountId, name));
    }
  }
}
