/**
 * The profile service's one-entry cache: the signed-in user's profile and
 * the time it was fetched, valid for a minute and only for that user.
 * Reads and writes of the profile table are inputs; `now` is the clock.
 */
module UserProfileService {
  import opened Base
  import opened JsonValues
  import opened Profiles

  /** `CACHE_TTL`, in milliseconds. */
  const CACHE_TTL := 60000

  /** The signed-in user as the auth client reports it. */
  datatype AuthUser = AuthUser(id: string, email: string)

  datatype Cache = Cache(user: Option<AuthUser>, profile: Option<Profile>, lastFetch: int)

  /** The state before anything is fetched, and after `clearUserCache`. */
  const EMPTY := Cache(None, None, 0)

  /** The cached profile belongs to `userId`. */
  predicate BelongsTo(p: Profile, userId: string)
  {
    "user_id" in p && p["user_id"] == JStr(userId)
  }

  /**
   * `isCacheValid`: a profile is cached, it is less than a minute old, and,
   * when a user id is given, it is that user's.
   */
  predicate IsCacheValid(c: Cache, now: int, userId: string)
  {
    c.profile.Some? && now - c.lastFetch < CACHE_TTL && (userId == "" || BelongsTo(c.profile.value, userId))
  }

  /** `updateCache`: remember the profile (or its absence) as fetched now. */
  function UpdateCache(c: Cache, p: Option<Profile>, now: int): (r: Cache)
    ensures r.profile == p && r.lastFetch == now && r.user == c.user
  {
    c.(profile := p, lastFetch := now)
  }

  /** A profile cached now is valid for its own user for the next minute and never after. */
  lemma FreshCacheValidForAMinute(c: Cache, p: Profile, now: int, later: int, userId: string)
    requires BelongsTo(p, userId)
    ensures now <= later ==> (IsCacheValid(UpdateCache(c, Some(p), now), later, userId) <==> later < now + CACHE_TTL)
    ensures IsCacheValid(UpdateCache(c, Some(p), now), later, "") <==> later < now + CACHE_TTL
  {
  }

  /**
   * `getUserProfile`: a valid cache answers without reading; otherwise the
   * read decides: a row is cached and returned, no row (PGRST116) caches
   * and returns null, and any other error is raised with the cache untouched.
   */
  function GetUserProfile(c: Cache, userId: string, now: int, read: Fetch<Profile>): (r: (Result<Option<Profile>>, Cache))
    ensures IsCacheValid(c, now, userId) ==> r == (Ok(c.profile), c)
    ensures !IsCacheValid(c, now, userId) && read.Found? ==> r == (Ok(Some(read.row)), UpdateCache(c, Some(read.row), now))
    ensures !IsCacheValid(c, now, userId) && read.NotFound? ==> r == (Ok(None), UpdateCache(c, None, now))
    ensures !IsCacheValid(c, now, userId) && read.Failed? ==> r == (Err(read.msg), c)
  {
    if IsCacheValid(c, now, userId) then (Ok(c.profile), c)
    else
      match read
      case Found(p) => (Ok(Some(p)), UpdateCache(c, Some(p), now))
      case NotFound => (Ok(None), UpdateCache(c, None, now))
      case Failed(msg) => (Err(msg), c)
  }

  /** Within the minute, a second request for the same user gets the first answer whatever the store now says. */
  lemma SecondReadComesFromCache(c: Cache, userId: string, now: int, later: int, p: Profile, read2: Fetch<Profile>)
    requires !IsCacheValid(c, now, userId)
    requires BelongsTo(p, userId) && now <= later < now + CACHE_TTL
    ensures var first := GetUserProfile(c, userId, now, Found(p));
      first.0 == Ok(Some(p)) && GetUserProfile(first.1, userId, later, read2) == first
  {
  }

  /** A missing profile is not remembered as valid: the next request takes whatever the store then holds. */
  lemma NotFoundIsReadAgain(c: Cache, userId: string, now: int, later: int, p: Profile)
    requires !IsCacheValid(c, now, userId)
    ensures var first := GetUserProfile(c, userId, now, NotFound);
      first.0 == Ok(None) && GetUserProfile(first.1, userId, later, Found(p)).0 == Ok(Some(p))
  {
  }

  /**
   * Every key of the update already holds that value in the cached profile
   * (`JSON.stringify` of both sides agree; a key the profile lacks differs).
   */
  predicate NothingChanges(cached: Profile, updates: Profile)
  {
    forall k :: k in updates ==> k in cached && cached[k] == updates[k]
  }

  /**
   * `updateUserProfile`, first half: `None` when the write is skipped (a
   * valid cache that already holds every updated value), otherwise the
   * payload sent, i.e. the updates stamped with `updated_at`.
   */
  function UpdateRequest(c: Cache, userId: string, updates: Profile, now: int, iso: string): (r: Option<Profile>)
    ensures r.None? <==> IsCacheValid(c, now, userId) && NothingChanges(c.profile.value, updates)
    ensures r.Some? ==> r.value.Keys == updates.Keys + {"updated_at"} && r.value["updated_at"] == JStr(iso)
    ensures r.Some? ==> forall k :: k in updates && k != "updated_at" ==> r.value[k] == updates[k]
  {
    if IsCacheValid(c, now, userId) && NothingChanges(c.profile.value, updates) then None
    else Some(updates["updated_at" := JStr(iso)])
  }

  /**
   * `updateUserProfile`: a skipped write returns the cached profile; a sent
   * one returns the stored row and caches it, or raises the store's error
   * leaving the cache as it was.
   */
  function UpdateUserProfile(c: Cache, userId: string, updates: Profile, now: int, iso: string, write: Result<Profile>): (r: (Result<Profile>, Cache))
    ensures UpdateRequest(c, userId, updates, now, iso).None? ==> r == (Ok(c.profile.value), c)
    ensures UpdateRequest(c, userId, updates, now, iso).Some? && write.Ok? ==> r == (Ok(write.value), UpdateCache(c, Some(write.value), now))
    ensures UpdateRequest(c, userId, updates, now, iso).Some? && write.Err? ==> r == (Err(write.msg), c)
  {
    match UpdateRequest(c, userId, updates, now, iso)
    case None => (Ok(c.profile.value), c)
    case Some(_) =>
      match write
      case Ok(p) => (Ok(p), UpdateCache(c, Some(p), now))
      case Err(msg) => (Err(msg), c)
  }

  /** Saving a profile right after it was saved, with the same values, sends nothing. */
  lemma RepeatedUpdateIsSkipped(c: Cache, userId: string, updates: Profile, now: int, later: int, iso: string, stored: Profile)
    requires UpdateRequest(c, userId, updates, now, iso).Some?
    requires BelongsTo(stored, userId) && NothingChanges(stored, updates)
    requires now <= later < now + CACHE_TTL
    ensures var after := UpdateUserProfile(c, userId, updates, now, iso, Ok(stored)).1;
      UpdateRequest(after, userId, updates, later, iso).None?
  {
  }

  /** An empty update never writes while the cache is valid. */
  lemma EmptyUpdateSkipped(c: Cache, userId: string, now: int, iso: string)
    requires IsCacheValid(c, now, userId)
    ensures UpdateRequest(c, userId, map[], now, iso).None?
  {
  }

  /** `clearUserCache`: no user, no profile, timestamp 0; no profile is then valid at any time. */
  function ClearUserCache(c: Cache): (r: Cache)
    ensures r.user.None? && r.profile.None? && r.lastFetch == 0
    ensures forall now, userId :: !IsCacheValid(r, now, userId)
  {
    EMPTY
  }

  /** What `getUserInfoWithProfile` reports for a signed-in user. */
  datatype UserInfo = Info(user: AuthUser, profile: Option<Profile>, isAdmin: bool, fromCache: bool) | InfoFailed(message: string)

  /**
   * `getUserInfoWithProfile` once the user is known: a cached profile younger
   * than a minute is used as it is; otherwise the read decides as in
   * `getUserProfile`, with a failed read reported rather than raised. The
   * user is an administrator exactly when the profile's role is `admin`.
   */
  function UserInfoFor(c: Cache, u: AuthUser, now: int, read: Fetch<Profile>): (r: (UserInfo, Cache))
    ensures r.0.Info? ==> r.0.user == u && (r.0.isAdmin <==> IsAdmin(r.0.profile))
    ensures r.0.Info? && r.0.fromCache ==> r.0.profile == c.profile && r.1 == c
    ensures r.0.InfoFailed? <==> !(c.profile.Some? && now - c.lastFetch < CACHE_TTL) && read.Failed?
    ensures read.NotFound? && r.0.Info? && !r.0.fromCache ==> r.0.profile.None? && !r.0.isAdmin
    ensures (r.0.Info? && r.0.fromCache) <==> c.profile.Some? && now - c.lastFetch < CACHE_TTL
    ensures !(c.profile.Some? && now - c.lastFetch < CACHE_TTL) && read.Found? ==>
      r.0.Info? && r.0.profile == Some(read.row) && r.1.profile == Some(read.row) && r.1.lastFetch == now
    ensures !(c.profile.Some? && now - c.lastFetch < CACHE_TTL) && read.NotFound? ==>
      r.0.Info? && r.1.profile.None? && r.1.lastFetch == now
  {
    if c.profile.Some? && now - c.lastFetch < CACHE_TTL then (Info(u, c.profile, IsAdmin(c.profile), true), c)
    else
      match read
      case Failed(_) => (InfoFailed("获取用户配置失败"), c)
      case NotFound => (Info(u, None, false, false), UpdateCache(c, None, now))
      case Found(p) => (Info(u, Some(p), IsAdmin(Some(p)), false), UpdateCache(c, Some(p), now))
  }

  /** Asking again within a minute of a read that found the row answers from the cache with that row. */
  lemma SecondAskIsCached(c: Cache, u: AuthUser, now: int, later: int, row: Profile, read: Fetch<Profile>)
    requires !(c.profile.Some? && now - c.lastFetch < CACHE_TTL)
    requires now <= later < now + CACHE_TTL
    ensures var first := UserInfoFor(c, u, now, Found(row));
      var second := UserInfoFor(first.1, u, later, read);
      second.0.Info? && second.0.fromCache && second.0.profile == Some(row) && second.0.isAdmin == first.0.isAdmin
  {
  }
}
