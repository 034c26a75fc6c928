/**
 * The persisted user store: who is signed in, their profile and whether
 * they are an administrator, filled in once per session by `initialize`
 * and emptied on sign-out. The session, the profile read and the storage
 * are inputs; the store's states are values and each action a function.
 */
module UserStore {
  import opened Base
  import opened Strings
  import opened JsonValues
  import opened Profiles

  const MSG_NOT_SIGNED_IN := "未登录"
  const MSG_UNKNOWN := "未知错误"

  datatype UserState = UserState(
    profile: Option<Profile>, isAdmin: bool, isLoading: bool,
    error: Option<string>, email: Option<string>, isInitialized: bool)

  /** `defaultState`: nothing loaded, not loading, not initialised. */
  const DEFAULT := UserState(None, false, false, None, None, false)

  /** The signed-in user of the session; `email` is "" when the session has none. */
  datatype SessionUser = SessionUser(id: string, email: string, metadata: Option<Profile>)

  /** A field read through `?.`: absent when the object or the key is. */
  function Field(o: Option<Profile>, k: string): (r: Option<Json>)
    ensures r.Some? <==> o.Some? && k in o.value
  {
    if o.Some? && k in o.value then Some(o.value[k]) else None
  }

  /** `profile?.role || userMetadata?.role || 'user'`. */
  function RoleOf(profile: Option<Profile>, metadata: Option<Profile>): (r: Json)
    ensures Truthy(r)
  {
    var p := Field(profile, "role");
    var m := Field(metadata, "role");
    if p.Some? && Truthy(p.value) then p.value
    else if m.Some? && Truthy(m.value) then m.value
    else JStr("user")
  }

  /** `typeof role === 'string' && role.toLowerCase() === 'admin'`. */
  predicate AdminRole(role: Json)
  {
    role.JStr? && Lower(role.s) == "admin"
  }

  /**
   * `determineUserRole`: the profile's role when it is truthy, else the
   * metadata's, else `user`; the user is an administrator when that role is
   * a string reading `admin` in any letter case.
   */
  function DetermineUserRole(profile: Option<Profile>, metadata: Option<Profile>): (r: bool)
    ensures Field(profile, "role").Some? && Truthy(Field(profile, "role").value) ==>
      (r <==> AdminRole(profile.value["role"]))
    ensures !(Field(profile, "role").Some? && Truthy(Field(profile, "role").value)) && Field(metadata, "role").Some? && Truthy(Field(metadata, "role").value) ==>
      (r <==> AdminRole(metadata.value["role"]))
    ensures !(Field(profile, "role").Some? && Truthy(Field(profile, "role").value)) && !(Field(metadata, "role").Some? && Truthy(Field(metadata, "role").value)) ==>
      !r
  {
    AdminRole(RoleOf(profile, metadata))
  }

  /**
   * The store is more lenient than the profile service: whoever the service
   * calls an administrator the store does too, but a role `ADMIN` counts
   * here only.
   */
  lemma StoreAdminIncludesServiceAdmin(profile: Option<Profile>, metadata: Option<Profile>)
    ensures IsAdmin(profile) ==> DetermineUserRole(profile, metadata)
    ensures profile == Some(map["role" := JStr("ADMIN")]) ==> DetermineUserRole(profile, metadata) && !IsAdmin(profile)
  {
    if IsAdmin(profile) {
      assert Lower("admin") == "admin";
    }
    if profile == Some(map["role" := JStr("ADMIN")]) {
      assert Lower("ADMIN") == "admin";
      assert "ADMIN"[0] != "admin"[0];
    }
  }

  /** What a failed step of `initialize` threw: an `Error` with its message, or some other value. */
  datatype Thrown = ErrorObject(message: string) | OtherValue

  function ThrownMessage(t: Thrown): (r: string)
    ensures t.ErrorObject? ==> r == t.message
    ensures t.OtherValue? ==> r == MSG_UNKNOWN
  {
    match t
    case ErrorObject(m) => m
    case OtherValue => MSG_UNKNOWN
  }

  /** The profile read of `initialize`: the profile or null, or what it threw. */
  datatype ProfileRead = ReadProfile(profile: Option<Profile>) | ReadThrew(thrown: Thrown)

  /** The state `initialize` sets before it awaits anything. */
  function InitializeStart(s: UserState): (r: UserState)
    ensures r.isLoading && r.error.None?
    ensures r.(isLoading := s.isLoading, error := s.error) == s
  {
    s.(isLoading := true, error := None)
  }

  /**
   * `initialize`: skipped while loading or once initialised. Otherwise, with
   * no session the error 未登录; with one, its email is kept when present
   * and the profile read decides: the profile and the role, or the thrown
   * message. Either way loading ends and the store counts as initialised.
   */
  function Initialize(s: UserState, session: Option<SessionUser>, read: ProfileRead): (r: UserState)
    ensures s.isLoading || s.isInitialized ==> r == s
    ensures !(s.isLoading || s.isInitialized) ==> !r.isLoading && r.isInitialized
    ensures !(s.isLoading || s.isInitialized) && session.None? ==>
      r == s.(error := Some(MSG_NOT_SIGNED_IN), isLoading := false, isInitialized := true)
    ensures !(s.isLoading || s.isInitialized) && session.Some? ==>
      r.email == (if session.value.email != "" then Some(session.value.email) else s.email)
    ensures !(s.isLoading || s.isInitialized) && session.Some? && read.ReadProfile? ==>
      r.error.None? && r.profile == read.profile && r.isAdmin == DetermineUserRole(read.profile, session.value.metadata)
    ensures !(s.isLoading || s.isInitialized) && session.Some? && read.ReadThrew? ==>
      r.error == Some(ThrownMessage(read.thrown)) && r.profile == s.profile && r.isAdmin == s.isAdmin
  {
    if s.isLoading || s.isInitialized then s
    else
      var started := InitializeStart(s);
      match session
      case None => started.(error := Some(MSG_NOT_SIGNED_IN), isLoading := false, isInitialized := true)
      case Some(u) =>
        var withEmail := if u.email != "" then started.(email := Some(u.email)) else started;
        match read
        case ReadProfile(p) =>
          withEmail.(profile := p, isAdmin := DetermineUserRole(p, u.metadata), isLoading := false, error := None, isInitialized := true)
        case ReadThrew(t) =>
          withEmail.(error := Some(ThrownMessage(t)), isLoading := false, isInitialized := true)
  }

  /**
   * Initialisation happens once: a call made while another is in flight,
   * or after one finished, changes nothing, whatever the session and the
   * store then say.
   */
  lemma InitializeOnce(s: UserState, session: Option<SessionUser>, read: ProfileRead, session2: Option<SessionUser>, read2: ProfileRead)
    ensures Initialize(InitializeStart(s), session2, read2) == InitializeStart(s)
    ensures var done := Initialize(s, session, read);
      Initialize(done, session2, read2) == done
  {
  }

  /** `reset`: back to the default state. */
  function Reset(s: UserState): (r: UserState)
    ensures r.profile.None? && !r.isAdmin && r.email.None? && r.error.None?
    ensures !r.isLoading && !r.isInitialized
  {
    DEFAULT
  }

  /** After a reset the next sign-in initialises again and takes the profile then read. */
  lemma ResetAllowsInitialize(s: UserState, u: SessionUser, p: Option<Profile>)
    ensures var r := Initialize(Reset(s), Some(u), ReadProfile(p));
      r.isInitialized && r.profile == p && r.error.None?
      && r.isAdmin == DetermineUserRole(p, u.metadata)
  {
  }

  /** The part of the state kept in storage. */
  datatype Persisted = Persisted(profile: Option<Profile>, isAdmin: bool, email: Option<string>, isInitialized: bool)

  /** `partialize`: only the profile, the admin flag, the email and the initialised flag are kept. */
  function Partialize(s: UserState): (r: Persisted)
    ensures r.profile == s.profile && r.isAdmin == s.isAdmin && r.email == s.email && r.isInitialized == s.isInitialized
  {
    Persisted(s.profile, s.isAdmin, s.email, s.isInitialized)
  }

  /** Rehydration: the kept fields are laid over the current state. */
  function Restore(s: UserState, p: Persisted): (r: UserState)
    ensures Partialize(r) == p
    ensures r.isLoading == s.isLoading && r.error == s.error
  {
    s.(profile := p.profile, isAdmin := p.isAdmin, email := p.email, isInitialized := p.isInitialized)
  }

  /**
   * A reload restores the kept fields and nothing else; a store that had
   * finished initialising is then not initialised again, so it keeps the
   * stored profile until the next sign-out.
   */
  lemma ReloadKeepsStoredProfile(s: UserState, session: Option<SessionUser>, read: ProfileRead)
    ensures var r := Restore(DEFAULT, Partialize(s));
      r.profile == s.profile && r.isAdmin == s.isAdmin && r.email == s.email
      && !r.isLoading && r.error.None?
      && (s.isInitialized ==> Initialize(r, session, read) == r)
  {
  }

  /** The version-1 state `migrate` builds from a version-0 one. */
  datatype Migrated = Migrated(userProfile: Option<Profile>, isAdmin: bool, email: Option<Json>, isInitialized: bool)

  /** The outcome of `migrate`: the rebuilt state, the stored state as it was, or the error a non-string role raises. */
  datatype MigrateOutcome = Rebuilt(state: Migrated) | PassedThrough(raw: Profile) | MigrateFailed

  /** A key of an old user: present only when the user is an object holding it. */
  function OldField(user: Json, k: string): (r: Option<Json>)
    ensures r.Some? <==> user.JObj? && k in user.fields
  {
    if user.JObj? && k in user.fields then Some(user.fields[k]) else None
  }

  /**
   * `migrate`: from version 0, a truthy old `user` becomes a profile with its
   * email, name (as display name) and role, an admin flag from its role in
   * any letter case, its email, and a state to initialise again; no old user
   * gives an empty state. A role that is neither a string nor null raises.
   * Any other version is passed through.
   */
  function Migrate(persisted: Profile, version: int): (r: MigrateOutcome)
    ensures version != 0 ==> r == PassedThrough(persisted)
    ensures version == 0 && !("user" in persisted && Truthy(persisted["user"])) ==> r == Rebuilt(Migrated(None, false, None, false))
    ensures r.Rebuilt? ==> !r.state.isInitialized
    ensures version == 0 && "user" in persisted && Truthy(persisted["user"]) ==>
      var role := OldField(persisted["user"], "role");
      (r.MigrateFailed? <==> role.Some? && !role.value.JNull? && !role.value.JStr?)
      && (r.Rebuilt? ==> r.state.isAdmin == (role.Some? && AdminRole(role.value)) && r.state.email == OldField(persisted["user"], "email"))
    ensures version == 0 && "user" in persisted && Truthy(persisted["user"]) && r.Rebuilt? ==>
      var user := persisted["user"];
      r.state.userProfile.Some? && var p := r.state.userProfile.value;
      p.Keys <= {"email", "display_name", "role"}
      && ("email" in p <==> OldField(user, "email").Some?) && ("email" in p ==> Some(p["email"]) == OldField(user, "email"))
      && ("display_name" in p <==> OldField(user, "name").Some?) && ("display_name" in p ==> Some(p["display_name"]) == OldField(user, "name"))
      && ("role" in p <==> OldField(user, "role").Some?) && ("role" in p ==> Some(p["role"]) == OldField(user, "role"))
  {
    if version != 0 then PassedThrough(persisted)
    else if !("user" in persisted && Truthy(persisted["user"])) then Rebuilt(Migrated(None, false, None, false))
    else
      var user := persisted["user"];
      var role := OldField(user, "role");
      if role.Some? && !role.value.JNull? && !role.value.JStr? then MigrateFailed
      else
        var email := OldField(user, "email");
        var name := OldField(user, "name");
        var profile := (if email.Some? then map["email" := email.value] else map[])
          + (if name.Some? then map["display_name" := name.value] else map[])
          + (if role.Some? then map["role" := role.value] else map[]);
        Rebuilt(Migrated(Some(profile), role.Some? && AdminRole(role.value), email, false))
  }

  /** The migrated profile carries the old user's role, so the profile-based admin check agrees with the migrated flag for an exact `admin`. */
  lemma MigratedAdminAgrees(email: string, role: string)
    ensures var stored := map["user" := JObj(map["email" := JStr(email), "role" := JStr(role)])];
      Migrate(stored, 0).Rebuilt?
      && Migrate(stored, 0).state.userProfile == Some(map["email" := JStr(email), "role" := JStr(role)])
      && (role == "admin" ==> Migrate(stored, 0).state.isAdmin && IsAdmin(Migrate(stored, 0).state.userProfile))
  {
    var stored := map["user" := JObj(map["email" := JStr(email), "role" := JStr(role)])];
    assert Truthy(stored["user"]);
    assert Lower("admin") == "admin";
    var e: map<string, Json> := map["email" := JStr(email)];
    var n: map<string, Json> := map[];
    var ro: map<string, Json> := map["role" := JStr(role)];
    assert e + n + ro == map["email" := JStr(email), "role" := JStr(role)];
  }

  /**
   * The auth-state listener: a sign-in or the initial session with a user
   * initialises the store, a sign-out resets it, and any other event leaves
   * it alone.
   */
  function OnAuthEvent(s: UserState, event: string, session: Option<SessionUser>, read: ProfileRead): (r: UserState)
    ensures (event == "SIGNED_IN" || event == "INITIAL_SESSION") && session.Some? ==> r == Initialize(s, session, read)
    ensures event == "SIGNED_OUT" ==> r == DEFAULT
    ensures event != "SIGNED_IN" && event != "INITIAL_SESSION" && event != "SIGNED_OUT" ==> r == s
    ensures session.None? && event != "SIGNED_OUT" ==> r == s
  {
    if (event == "SIGNED_IN" || event == "INITIAL_SESSION") && session.Some? then Initialize(s, session, read)
    else if event == "SIGNED_OUT" then Reset(s)
    else s
  }

  /** Signing out and in again reloads the profile, whatever the store held before. */
  lemma SignOutThenIn(s: UserState, u: SessionUser, p: Option<Profile>)
    ensures var r := OnAuthEvent(OnAuthEvent(s, "SIGNED_OUT", None, ReadProfile(None)), "SIGNED_IN", Some(u), ReadProfile(p));
      r.profile == p && r.isInitialized && r.isAdmin == DetermineUserRole(p, u.metadata)
  {
  }
}
