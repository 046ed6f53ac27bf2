/**
 * The authentication service: the stored user list, the signed-in user kept for the
 * browser session, and the login, registration and logout rules. The registration date
 * text, produced from the clock in the source, is a parameter here.
 */
module AuthService {
  import opened Wrappers
  import opened Text

  /** A stored account. */
  datatype User = User(username: string, password: string, registrationDate: string)

  /** What `login` and `register` answer. */
  datatype AuthResult = AuthResult(success: bool, message: string)

  const MSG_EMPTY_CREDENTIALS: string := "Por favor, ingrese su usuario y contraseña."
  const MSG_LOGIN_OK: string := "Inicio de sesión exitoso"
  const MSG_BAD_CREDENTIALS: string := "Usuario o contraseña incorrectos."
  const MSG_SHORT_USERNAME: string := "El nombre de usuario debe tener al menos 4 caracteres."
  const MSG_SHORT_PASSWORD: string := "La contraseña debe tener al menos 6 caracteres."
  const MSG_USERNAME_TAKEN: string := "Este nombre de usuario ya está en uso."
  const MSG_REGISTER_OK: string := "¡Registro exitoso! Ahora puedes iniciar sesión."

  const ADMIN: string := "admin"

  /** `users.find(p)`: the first user meeting `p`, if any. */
  function FindUser(users: seq<User>, p: User -> bool): (r: Option<User>)
    ensures r.None? <==> forall i :: 0 <= i < |users| ==> !p(users[i])
    ensures r.Some? ==>
      exists i :: 0 <= i < |users| && users[i] == r.value && p(users[i]) && forall j :: 0 <= j < i ==> !p(users[j])
  {
    if users == [] then None
    else if p(users[0]) then Some(users[0])
    else
      var r := FindUser(users[1..], p);
      assert forall i :: 1 <= i < |users| ==> users[i] == users[1..][i - 1];
      if r.Some? then
        var i :| 0 <= i < |users[1..]| && users[1..][i] == r.value && p(users[1..][i])
          && forall j :: 0 <= j < i ==> !p(users[1..][j]);
        assert users[i + 1] == r.value && forall j :: 0 <= j < i + 1 ==> !p(users[j]);
        r
      else r
  }

  /** `u => u.username === username && u.password === password`. */
  function HasCredentials(username: string, password: string): User -> bool {
    (u: User) => u.username == username && u.password == password
  }

  /** `u => u.username === username`. */
  function HasUsername(username: string): User -> bool {
    (u: User) => u.username == username
  }

  /** No two accounts share a username. */
  predicate UniqueUsernames(users: seq<User>) {
    forall i, j :: 0 <= i < j < |users| ==> users[i].username != users[j].username
  }

  /**
   * The answer to a login attempt: blank fields are refused first; otherwise the attempt
   * succeeds exactly when some account has both the username and the password, compared
   * as typed (not trimmed).
   */
  function LoginOutcome(users: seq<User>, username: string, password: string): (r: AuthResult)
    ensures IsBlank(username) || IsBlank(password) ==> r == AuthResult(false, MSG_EMPTY_CREDENTIALS)
    ensures r.success <==>
      !IsBlank(username) && !IsBlank(password)
      && exists i :: 0 <= i < |users| && users[i].username == username && users[i].password == password
    ensures r.success ==> r.message == MSG_LOGIN_OK
    ensures !IsBlank(username) && !IsBlank(password) && !r.success ==> r.message == MSG_BAD_CREDENTIALS
  {
    if IsBlank(username) || IsBlank(password) then AuthResult(false, MSG_EMPTY_CREDENTIALS)
    else if FindUser(users, HasCredentials(username, password)).Some? then AuthResult(true, MSG_LOGIN_OK)
    else AuthResult(false, MSG_BAD_CREDENTIALS)
  }

  /**
   * The answer to a registration: the username length, then the password length, then
   * whether the username is taken, each refusal with its own message; lengths are not
   * trimmed.
   */
  function RegisterOutcome(users: seq<User>, username: string, password: string): (r: AuthResult)
    ensures |username| < 4 ==> r == AuthResult(false, MSG_SHORT_USERNAME)
    ensures |username| >= 4 && |password| < 6 ==> r == AuthResult(false, MSG_SHORT_PASSWORD)
    ensures |username| >= 4 && |password| >= 6 && (exists i :: 0 <= i < |users| && users[i].username == username)
      ==> r == AuthResult(false, MSG_USERNAME_TAKEN)
    ensures r.success <==>
      |username| >= 4 && |password| >= 6
      && forall i :: 0 <= i < |users| ==> users[i].username != username
    ensures r.success ==> r.message == MSG_REGISTER_OK
  {
    if |username| < 4 then AuthResult(false, MSG_SHORT_USERNAME)
    else if |password| < 6 then AuthResult(false, MSG_SHORT_PASSWORD)
    else if FindUser(users, HasUsername(username)).Some? then AuthResult(false, MSG_USERNAME_TAKEN)
    else AuthResult(true, MSG_REGISTER_OK)
  }

  /** A registered account whose fields are not blank can log in right after registering. */
  lemma RegisterThenLogin(users: seq<User>, username: string, password: string, date: string)
    requires RegisterOutcome(users, username, password).success
    requires !IsBlank(username) && !IsBlank(password)
    ensures LoginOutcome(users + [User(username, password, date)], username, password).success
  {
    var after := users + [User(username, password, date)];
    assert after[|users|].username == username && after[|users|].password == password;
  }

  /**
   * Registration does not trim but login does: a six-space password is accepted at
   * registration and can never be used to log in.
   */
  lemma BlankPasswordRegistersButCannotLogIn(users: seq<User>, username: string, date: string)
    requires |username| >= 4 && forall i :: 0 <= i < |users| ==> users[i].username != username
    ensures RegisterOutcome(users, username, "      ").success
    ensures !LoginOutcome(users + [User(username, "      ", date)], username, "      ").success
  {
    var p := "      ";
    assert forall i :: 0 <= i < |p| ==> IsJsWhitespace(p[i]);
  }

  /** The service: the stored accounts and the signed-in user. */
  class AuthState {
    /** The accounts saved in local storage. */
    var users: seq<User>
    /** The user name saved in session storage. */
    var session: Option<string>
    /** The signed-in user the pages observe. */
    var currentUser: Option<string>

    /**
     * Seeds an `admin`/`admin` account when no account is stored, then restores the
     * signed-in user from the session when one is saved there.
     */
    constructor(stored: seq<User>, sessionUser: Option<string>, now: string)
      ensures stored == [] ==> users == [User(ADMIN, ADMIN, now)]
      ensures stored != [] ==> users == stored
      ensures session == sessionUser
      ensures currentUser == if sessionUser.Some? && sessionUser.value != "" then sessionUser else None
    {
      users := if stored == [] then [User(ADMIN, ADMIN, now)] else stored;
      session := sessionUser;
      currentUser := if sessionUser.Some? && sessionUser.value != "" then sessionUser else None;
    }

    /** `isAuthenticated`. */
    predicate IsAuthenticated()
      reads this
    {
      currentUser.Some?
    }

    /** `login`: on success the user is signed in and remembered for the session. */
    method Login(username: string, password: string) returns (r: AuthResult)
      modifies this
      ensures r == LoginOutcome(old(users), username, password)
      ensures users == old(users)
      ensures r.success ==> session == Some(username) && currentUser == Some(username) && IsAuthenticated()
      ensures !r.success ==> session == old(session) && currentUser == old(currentUser)
    {
      r := LoginOutcome(users, username, password);
      if r.success {
        session := Some(username);
        currentUser := Some(username);
      }
    }

    /** `register`: on success the account is stored at the end; the session is untouched. */
    method Register(username: string, password: string, now: string) returns (r: AuthResult)
      modifies this
      ensures r == RegisterOutcome(old(users), username, password)
      ensures r.success ==> users == old(users) + [User(username, password, now)]
      ensures !r.success ==> users == old(users)
      ensures session == old(session) && currentUser == old(currentUser)
      ensures UniqueUsernames(old(users)) ==> UniqueUsernames(users)
    {
      r := RegisterOutcome(users, username, password);
      if r.success {
        users := users + [User(username, password, now)];
      }
    }

    /** `logout`: forgets the session and signs the user out. */
    method Logout()
      modifies this
      ensures session == None && currentUser == None && !IsAuthenticated()
      ensures users == old(users)
    {
      session := None;
      currentUser := None;
    }
  }

  /** On a fresh store the seeded administrator can log in. */
  lemma AdminCanLogIn(now: string)
    ensures LoginOutcome([User(ADMIN, ADMIN, now)], ADMIN, ADMIN).success
  {
    assert !IsJsWhitespace(ADMIN[0]);
  }
}
