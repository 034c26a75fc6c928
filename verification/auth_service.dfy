/**
 * The table-backed auth service: sign-in against the `users` table with an
 * active flag and a stored password, sign-up of a new email, and the
 * signed-in user kept as JSON text under the storage key `user`. The table
 * is the list of its rows; the stored text is `None` when the key is absent.
 */
module AuthService {
  import opened Base
  import opened Seqs
  import opened JsonValues

  const MSG_INVALID := "Invalid login credentials"
  const MSG_INACTIVE := "Account is inactive. Please contact an administrator."
  const MSG_EXISTS := "User already exists with this email"
  const MSG_CREATE_FAILED := "Failed to create account"
  const DEFAULT_ROLE := "user"

  datatype UserRecord = UserRecord(id: string, email: string, passwordHash: string, role: string, isActive: Json)

  /** The rows with this email. */
  function WithEmail(table: seq<UserRecord>, email: string): (r: seq<UserRecord>)
    ensures forall u :: u in r <==> u in table && u.email == email
  {
    Filter((u: UserRecord) => u.email == email, table)
  }

  /** `.single()`: the row when exactly one matches, otherwise an error and no data. */
  function Single(rows: seq<UserRecord>): (r: Option<UserRecord>)
    ensures r.Some? <==> |rows| == 1
    ensures r.Some? ==> r.value == rows[0]
  {
    if |rows| == 1 then Some(rows[0]) else None
  }

  /** What sign-in and sign-up store: exactly the id, email, role and active flag. */
  function SessionUser(u: UserRecord): (r: Json)
    ensures r.JObj? && r.fields.Keys == {"id", "email", "role", "is_active"}
    ensures r.fields["id"] == JStr(u.id) && r.fields["email"] == JStr(u.email)
    ensures r.fields["role"] == JStr(u.role) && r.fields["is_active"] == u.isActive
  {
    JObj(map["id" := JStr(u.id), "email" := JStr(u.email), "role" := JStr(u.role), "is_active" := u.isActive])
  }

  /**
   * `login`: no single row for the email, or a wrong password, is the
   * credentials error; an inactive account is refused before the password
   * is looked at. On success the user is stored and returned.
   */
  function Login(table: seq<UserRecord>, stored: Option<JsonText>, email: string, password: string): (r: (Result<Json>, Option<JsonText>))
    ensures r.0.Err? ==> r.1 == stored
    ensures r.0.Ok? ==> r.1 == Some(Parsed(r.0.value))
    ensures |WithEmail(table, email)| != 1 ==> r.0 == Err(MSG_INVALID)
    ensures |WithEmail(table, email)| == 1 ==>
      var u := WithEmail(table, email)[0];
      (!Truthy(u.isActive) ==> r.0 == Err(MSG_INACTIVE))
      && (Truthy(u.isActive) && u.passwordHash != password ==> r.0 == Err(MSG_INVALID))
      && (Truthy(u.isActive) && u.passwordHash == password ==> r.0 == Ok(SessionUser(u)))
  {
    match Single(WithEmail(table, email))
    case None => (Err(MSG_INVALID), stored)
    case Some(u) =>
      if !Truthy(u.isActive) then (Err(MSG_INACTIVE), stored)
      else if u.passwordHash != password then (Err(MSG_INVALID), stored)
      else (Ok(SessionUser(u)), Some(Parsed(SessionUser(u))))
  }

  /** Sign-in succeeds exactly for the one active row with that email and password. */
  lemma LoginSucceedsIff(table: seq<UserRecord>, stored: Option<JsonText>, email: string, password: string)
    ensures Login(table, stored, email, password).0.Ok? <==>
      exists u :: u in table && u.email == email && |WithEmail(table, email)| == 1 && Truthy(u.isActive) && u.passwordHash == password
  {
    var rows := WithEmail(table, email);
    if |rows| == 1 {
      assert rows[0] in rows;
      forall u | u in table && u.email == email ensures u == rows[0] {
        assert u in rows;
      }
    }
  }

  /** The row `signup` inserts: the email, the password as given, and the role, `user` by default. */
  datatype NewUser = NewUser(email: string, passwordHash: string, role: string)

  /**
   * `signup`: an email held by exactly one row is refused without an insert
   * (with several rows `.single()` yields no data and the insert goes
   * ahead); otherwise the row is inserted and the store's answer decides:
   * the stored row is kept as the session user, or its error (`""` for
   * none) is raised.
   */
  function Signup(table: seq<UserRecord>, stored: Option<JsonText>, email: string, password: string, role: Option<string>, insert: Result<UserRecord>): (r: (Result<Json>, Option<JsonText>, Option<NewUser>))
    ensures |WithEmail(table, email)| == 1 <==> r.0 == Err(MSG_EXISTS) && r.2.None?
    ensures |WithEmail(table, email)| != 1 ==> r.2 == Some(NewUser(email, password, role.GetOr(DEFAULT_ROLE)))
    ensures |WithEmail(table, email)| != 1 && insert.Ok? ==> r.0 == Ok(SessionUser(insert.value)) && r.1 == Some(Parsed(SessionUser(insert.value)))
    ensures |WithEmail(table, email)| != 1 && insert.Err? ==> r.0 == Err(if insert.msg != "" then insert.msg else MSG_CREATE_FAILED) && r.1 == stored
    ensures r.0.Err? ==> r.1 == stored
  {
    if Single(WithEmail(table, email)).Some? then (Err(MSG_EXISTS), stored, None)
    else
      var row := NewUser(email, password, role.GetOr(DEFAULT_ROLE));
      match insert
      case Ok(u) => (Ok(SessionUser(u)), Some(Parsed(SessionUser(u))), Some(row))
      case Err(msg) => (Err(if msg != "" then msg else MSG_CREATE_FAILED), stored, Some(row))
  }

  /** `logout`: the stored user is removed. */
  function Logout(stored: Option<JsonText>): (r: Option<JsonText>)
    ensures r.None?
  {
    None
  }

  /** `getCurrentUser`: nothing for a missing or empty entry or text `JSON.parse` rejects, else the parsed value. */
  function CurrentUser(stored: Option<JsonText>): (r: Option<Json>)
    ensures r.Some? <==> stored.Some? && stored.value.Parsed?
    ensures r.Some? ==> r.value == stored.value.value
  {
    match stored
    case Some(Parsed(v)) => Some(v)
    case _ => None
  }

  /** `isAuthenticated`: `!!getCurrentUser()`. */
  predicate IsAuthenticated(stored: Option<JsonText>)
  {
    var u := CurrentUser(stored);
    u.Some? && Truthy(u.value)
  }

  /** `isAdmin`: the stored user's role is exactly `admin`; case matters. */
  predicate IsAdmin(stored: Option<JsonText>)
  {
    var u := CurrentUser(stored);
    u.Some? && u.value.JObj? && "role" in u.value.fields && u.value.fields["role"] == JStr("admin")
  }

  /**
   * After a successful sign-in the user is authenticated, is the user just
   * returned, and is an administrator exactly when the row's role is
   * `admin`; after `logout` nobody is.
   */
  lemma SignInThenOut(table: seq<UserRecord>, stored: Option<JsonText>, email: string, password: string)
    requires Login(table, stored, email, password).0.Ok?
    ensures var after := Login(table, stored, email, password);
      IsAuthenticated(after.1)
      && CurrentUser(after.1) == Some(after.0.value)
      && (IsAdmin(after.1) <==> WithEmail(table, email)[0].role == "admin")
      && !IsAuthenticated(Logout(after.1)) && !IsAdmin(Logout(after.1))
  {
  }

  /**
   * A signed-in user is an administrator exactly when the stored role text
   * is `admin`, letter for letter: a role differing only in case is not.
   */
  lemma AdminIsCaseSensitive(u: UserRecord)
    ensures IsAdmin(Some(Parsed(SessionUser(u)))) <==> u.role == "admin"
    ensures u.role == "Admin" ==> !IsAdmin(Some(Parsed(SessionUser(u))))
  {
    if u.role == "Admin" {
      assert u.role[0] != "admin"[0];
    }
  }
}
