/**
 * The management page's loaders: the user list built from all profiles and
 * the industry list, each with its empty and error outcomes. The result of
 * the query is an input; the orderings applied to a non-empty result (the
 * sign-in time comparator and the zh-CN name collation) are the parameter
 * `sort`, of which only that it permutes its input is assumed.
 */
module ManagementPage {
  import opened Base
  import opened Seqs
  import opened JsonValues
  import opened Profiles
  import UserManagement
  import IndustryService

  const NO_USERS := "暂无用户数据"
  const USERS_FAILED := "获取用户列表失败"
  const NO_INDUSTRIES := "暂无行业数据"
  const INDUSTRIES_FAILED := "获取行业列表失败"

  /** A loaded list and the error shown with it. */
  datatype Loaded<T> = Loaded(items: seq<T>, error: Option<string>)

  /** `err.message || fallback`. */
  function MessageOr(msg: string, fallback: string): (r: string)
    ensures msg != "" ==> r == msg
    ensures msg == "" ==> r == fallback
  {
    if msg != "" then msg else fallback
  }

  /**
   * `fetchUsers`: a failed query shows no users and its message; an empty
   * result shows no users and 暂无用户数据; otherwise one row per profile,
   * in the order `sort` gives, and no error.
   */
  function FetchUsers(query: Result<seq<Profile>>, fmt: Json -> string, sort: seq<UserManagement.UserRow> -> seq<UserManagement.UserRow>): (r: Loaded<UserManagement.UserRow>)
    requires forall s :: multiset(sort(s)) == multiset(s)
    ensures query.Err? ==> r == Loaded([], Some(MessageOr(query.msg, USERS_FAILED)))
    ensures query == Ok([]) ==> r == Loaded([], Some(NO_USERS))
    ensures query.Ok? && query.value != [] ==> r.error.None?
    ensures query.Ok? && query.value != [] ==>
      multiset(r.items) == multiset(Map((p: Profile) => UserManagement.ToUserRow(p, fmt), query.value))
  {
    match query
    case Err(msg) => Loaded([], Some(MessageOr(msg, USERS_FAILED)))
    case Ok(profiles) =>
      if profiles == [] then Loaded([], Some(NO_USERS))
      else Loaded(sort(Map((p: Profile) => UserManagement.ToUserRow(p, fmt), profiles)), None)
  }

  /** Every loaded user comes from a profile, and every profile gives a loaded user. */
  lemma LoadedUsersAreTheProfiles(profiles: seq<Profile>, fmt: Json -> string, sort: seq<UserManagement.UserRow> -> seq<UserManagement.UserRow>)
    requires forall s :: multiset(sort(s)) == multiset(s)
    requires profiles != []
    ensures var rows := FetchUsers(Ok(profiles), fmt, sort).items;
      |rows| == |profiles|
      && (forall u :: u in rows ==> u.profile in profiles)
      && (forall i :: 0 <= i < |profiles| ==> UserManagement.ToUserRow(profiles[i], fmt) in rows)
  {
    var mapped := Map((p: Profile) => UserManagement.ToUserRow(p, fmt), profiles);
    var rows := FetchUsers(Ok(profiles), fmt, sort).items;
    assert multiset(rows) == multiset(mapped);
    assert |rows| == |multiset(rows)| == |multiset(mapped)| == |mapped|;
    forall u | u in rows ensures u.profile in profiles {
      assert u in multiset(rows);
      assert u in mapped;
      var i :| 0 <= i < |mapped| && mapped[i] == u;
    }
    forall i | 0 <= i < |profiles| ensures UserManagement.ToUserRow(profiles[i], fmt) in rows {
      assert mapped[i] in multiset(mapped);
    }
  }

  /**
   * `fetchIndustries`: a failed query shows no industries and its message;
   * an empty one shows 暂无行业数据; otherwise the industries in the order
   * `sort` gives, and no error.
   */
  function FetchIndustries(query: Result<seq<IndustryService.Industry>>, sort: seq<IndustryService.Industry> -> seq<IndustryService.Industry>): (r: Loaded<IndustryService.Industry>)
    requires forall s :: multiset(sort(s)) == multiset(s)
    ensures query.Err? ==> r == Loaded([], Some(MessageOr(query.msg, INDUSTRIES_FAILED)))
    ensures query == Ok([]) ==> r == Loaded([], Some(NO_INDUSTRIES))
    ensures query.Ok? && query.value != [] ==> r.error.None? && multiset(r.items) == multiset(query.value)
  {
    match query
    case Err(msg) => Loaded([], Some(MessageOr(msg, INDUSTRIES_FAILED)))
    case Ok(industries) =>
      if industries == [] then Loaded([], Some(NO_INDUSTRIES))
      else Loaded(sort(industries), None)
  }

  /** A loader shows an error exactly when it shows nothing. */
  lemma ErrorIffEmpty(query: Result<seq<IndustryService.Industry>>, sort: seq<IndustryService.Industry> -> seq<IndustryService.Industry>)
    requires forall s :: multiset(sort(s)) == multiset(s)
    ensures FetchIndustries(query, sort).error.Some? <==> FetchIndustries(query, sort).items == []
  {
    if query.Ok? && query.value != [] {
      var r := FetchIndustries(query, sort);
      assert |r.items| == |multiset(r.items)| == |multiset(query.value)| == |query.value|;
    }
  }
}
