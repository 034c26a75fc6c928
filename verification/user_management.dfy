/**
 * The user-management table: profile rows with their display defaults,
 * the search box, and the edit form with its device, server and material
 * lists, the industry picker that applies an industry's materials, and
 * the profile update built when the form is saved.
 */
module UserManagement {
  import opened Base
  import opened Strings
  import opened Seqs
  import opened JsonValues
  import opened Paging
  import opened Profiles
  import IndustryService

  const NEVER_SIGNED_IN := "从未登录"
  const DEFAULT_ROLE := "user"
  const CUSTOM_INDUSTRY := "自定义"

  /** A non-empty string column. */
  predicate HasText(p: Profile, k: string)
  {
    k in p && p[k].JStr? && p[k].s != ""
  }

  /** A row of the user table, next to the profile it was built from. */
  datatype UserRow = UserRow(
    id: Option<Json>, email: string, lastSignIn: string, createdAt: string,
    isActive: Json, role: string, displayName: string, profile: Profile)

  /**
   * The row of a profile: a missing email and a missing update time both
   * read 从未登录, a missing role is `user`, a missing `is_active` counts as
   * active, missing creation time and display name are empty; a present
   * update time is shown through the locale formatter `fmt`.
   */
  function ToUserRow(p: Profile, fmt: Json -> string): (r: UserRow)
    ensures r.profile == p && r.id == Get(p, "user_id")
    ensures HasText(p, "email") ==> r.email == p["email"].s
    ensures !HasText(p, "email") ==> r.email == NEVER_SIGNED_IN
    ensures "updated_at" in p && Truthy(p["updated_at"]) ==> r.lastSignIn == fmt(p["updated_at"])
    ensures !("updated_at" in p && Truthy(p["updated_at"])) ==> r.lastSignIn == NEVER_SIGNED_IN
    ensures HasText(p, "created_at") ==> r.createdAt == p["created_at"].s
    ensures !HasText(p, "created_at") ==> r.createdAt == ""
    ensures "is_active" !in p ==> r.isActive == JBool(true)
    ensures "is_active" in p ==> r.isActive == p["is_active"]
    ensures HasText(p, "role") ==> r.role == p["role"].s
    ensures !HasText(p, "role") ==> r.role == DEFAULT_ROLE
    ensures HasText(p, "display_name") ==> r.displayName == p["display_name"].s
    ensures !HasText(p, "display_name") ==> r.displayName == ""
  {
    UserRow(
      Get(p, "user_id"),
      TextOr(p, "email", NEVER_SIGNED_IN),
      if "updated_at" in p && Truthy(p["updated_at"]) then fmt(p["updated_at"]) else NEVER_SIGNED_IN,
      TextOr(p, "created_at", ""),
      ActiveOr(p),
      TextOr(p, "role", DEFAULT_ROLE),
      TextOr(p, "display_name", ""),
      p)
  }

  /** A row never shows an empty email or role, whatever the profile holds. */
  lemma RowsAlwaysShowEmailAndRole(p: Profile, fmt: Json -> string)
    ensures ToUserRow(p, fmt).email != "" && ToUserRow(p, fmt).role != ""
    ensures ToUserRow(p, fmt).lastSignIn == NEVER_SIGNED_IN || "updated_at" in p
  {
  }

  /**
   * The search test: the lower-cased term occurs in the lower-cased email,
   * or in the display name, department or last sign-in text when those are
   * non-empty.
   */
  predicate MatchesUser(u: UserRow, term: string)
  {
    var t := Lower(term);
    Contains(Lower(u.email), t)
    || (u.displayName != "" && Contains(Lower(u.displayName), t))
    || (HasText(u.profile, "department") && Contains(Lower(u.profile["department"].s), t))
    || (u.lastSignIn != "" && Contains(Lower(u.lastSignIn), t))
  }

  /**
   * The search effect: with users loaded, exactly the matching users in
   * list order, from page 1, with `ceil(n / 10)` pages; with none loaded,
   * nothing changes.
   */
  function SearchUsers(users: seq<UserRow>, term: string, view: ListView<UserRow>): (r: ListView<UserRow>)
    ensures users == [] ==> r == view
    ensures users != [] ==> r.page == 1 && IsSubseq(r.filtered, users)
    ensures users != [] ==> forall u :: u in r.filtered ==> MatchesUser(u, term)
    ensures users != [] ==> forall i :: 0 <= i < |users| && MatchesUser(users[i], term) ==> users[i] in r.filtered
    ensures users != [] ==> r.totalPages == TotalPages(|r.filtered|)
  {
    SearchView(users, u => MatchesUser(u, term), view)
  }

  /** An empty search box shows every user. */
  lemma EmptySearchShowsAll(users: seq<UserRow>, view: ListView<UserRow>)
    requires users != []
    ensures SearchUsers(users, "", view).filtered == users
  {
    assert Lower("") == "";
    forall i | 0 <= i < |users| ensures MatchesUser(users[i], "") {
      ContainsSelf(Lower(users[i].email));
    }
    SearchAllShowsEverything(users, u => MatchesUser(u, ""), view);
  }

  /** Searching for a user's email, in any letter case, finds that user. */
  lemma SearchFindsEmail(users: seq<UserRow>, i: int, view: ListView<UserRow>)
    requires 0 <= i < |users|
    ensures users[i] in SearchUsers(users, users[i].email, view).filtered
  {
    ContainsSelf(Lower(users[i].email));
  }

  /** The edit form of a user. */
  datatype UserForm = UserForm(
    displayName: string, email: string, phone: string, department: string, position: string, bio: string,
    isActive: Json, devices: seq<Json>, servers: seq<Json>, materials: seq<Json>, role: string, industry: string)

  /**
   * `handleEditUser`: the form starts from the row's display name and the
   * profile's columns, with empty text, no devices, servers or materials,
   * active, role `user` and industry 自定义 where the profile has nothing.
   */
  function EditForm(u: UserRow): (r: UserForm)
    ensures r.displayName == u.displayName
    ensures forall k :: k in {"email", "phone", "department", "position", "bio"} && !HasText(u.profile, k) ==> FormText(r, k) == ""
    ensures forall k :: k in {"email", "phone", "department", "position", "bio"} && HasText(u.profile, k) ==> FormText(r, k) == u.profile[k].s
    ensures r.isActive == ActiveOr(u.profile)
    ensures "material_list" in u.profile && u.profile["material_list"].JArr? ==> r.materials == u.profile["material_list"].items
    ensures !("material_list" in u.profile && u.profile["material_list"].JArr?) ==> r.materials == []
    ensures "mobile_devices" in u.profile && u.profile["mobile_devices"].JArr? ==> r.devices == u.profile["mobile_devices"].items
    ensures !("mobile_devices" in u.profile && u.profile["mobile_devices"].JArr?) ==> r.devices == []
    ensures "servers" in u.profile && u.profile["servers"].JArr? ==> r.servers == u.profile["servers"].items
    ensures !("servers" in u.profile && u.profile["servers"].JArr?) ==> r.servers == []
    ensures r.role != "" && r.industry != ""
    ensures HasText(u.profile, "role") ==> r.role == u.profile["role"].s
    ensures !HasText(u.profile, "role") ==> r.role == DEFAULT_ROLE
    ensures HasText(u.profile, "industry") ==> r.industry == u.profile["industry"].s
    ensures !HasText(u.profile, "industry") ==> r.industry == CUSTOM_INDUSTRY
  {
    var p := u.profile;
    UserForm(u.displayName, TextOr(p, "email", ""), TextOr(p, "phone", ""), TextOr(p, "department", ""),
      TextOr(p, "position", ""), TextOr(p, "bio", ""), ActiveOr(p),
      ListOr(p, "mobile_devices"), ListOr(p, "servers"), ListOr(p, "material_list"),
      TextOr(p, "role", DEFAULT_ROLE), TextOr(p, "industry", CUSTOM_INDUSTRY))
  }

  /** The text field of the form that edits column `k`. */
  function FormText(f: UserForm, k: string): string
  {
    if k == "email" then f.email
    else if k == "phone" then f.phone
    else if k == "department" then f.department
    else if k == "position" then f.position
    else if k == "bio" then f.bio
    else ""
  }

  /**
   * Picking an industry: a known industry other than 自定义 also replaces
   * the material list with that industry's list; any other choice only
   * records the industry name. `industries` is `None` when the page was
   * given no industry list.
   */
  function ChooseIndustry(f: UserForm, value: string, industries: Option<seq<IndustryService.Industry>>): (r: UserForm)
    ensures r.industry == value
    ensures r.(materials := f.materials, industry := f.industry) == f
    ensures value != CUSTOM_INDUSTRY && industries.Some? && (exists i :: i in industries.value && i.name == value) ==>
      exists i :: i in industries.value && i.name == value && r.materials == StringArray(i.materialList).items
    ensures value != CUSTOM_INDUSTRY && industries.Some? ==> forall j ::
      0 <= j < |industries.value| && industries.value[j].name == value && (forall k :: 0 <= k < j ==> industries.value[k].name != value) ==>
      r.materials == StringArray(industries.value[j].materialList).items
    ensures value == CUSTOM_INDUSTRY || industries.None? || (forall i :: i in industries.value ==> i.name != value) ==>
      r.materials == f.materials
  {
    if value != CUSTOM_INDUSTRY && industries.Some? then
      var named := (i: IndustryService.Industry) => i.name == value;
      FindFirst(named, industries.value);
      match Find(named, industries.value)
      case Some(i) => f.(industry := value, materials := StringArray(i.materialList).items)
      case None => f.(industry := value)
    else f.(industry := value)
  }

  /** The first listed industry with the chosen name is the one applied. */
  lemma ChooseFirstIndustry(f: UserForm, value: string, industries: seq<IndustryService.Industry>)
    requires value != CUSTOM_INDUSTRY && industries != [] && industries[0].name == value
    ensures ChooseIndustry(f, value, Some(industries)).materials == StringArray(industries[0].materialList).items
  {
  }

  /** `{ id, name, added_at }` as stored in a device or server list. */
  function ListEntry(id: string, name: string, addedAt: string): Json
  {
    JObj(map["id" := JStr(id), "name" := JStr(name), "added_at" := JStr(addedAt)])
  }

  /** `entry.id === id`. */
  predicate HasId(entry: Json, id: string)
  {
    entry.JObj? && "id" in entry.fields && entry.fields["id"] == JStr(id)
  }

  /**
   * Adding a device or server named by the input: blank input changes
   * nothing; otherwise an entry with id `prefix + now`, the input as typed
   * and the time `iso` is appended, and the input is cleared.
   */
  function AddEntry(list: seq<Json>, input: string, prefix: string, now: string, iso: string): (r: (seq<Json>, string))
    ensures Trim(input) == [] ==> r == (list, input)
    ensures Trim(input) != [] ==> r.1 == [] && |r.0| == |list| + 1 && r.0[..|list|] == list
    ensures Trim(input) != [] ==> HasId(r.0[|list|], prefix + now) && "name" in r.0[|list|].fields && r.0[|list|].fields["name"] == JStr(input)
  {
    if Trim(input) == [] then (list, input)
    else
      var added := list + [ListEntry(prefix + now, input, iso)];
      assert added[..|list|] == list;
      (added, [])
  }

  /** Removing a device or server: every entry with that id goes, every other entry stays in order. */
  function RemoveEntry(list: seq<Json>, id: string): (r: seq<Json>)
    ensures forall e :: e in r ==> !HasId(e, id)
    ensures forall i :: 0 <= i < |list| && !HasId(list[i], id) ==> list[i] in r
    ensures IsSubseq(r, list)
    ensures forall e :: multiset(r)[e] == if HasId(e, id) then 0 else multiset(list)[e]
  {
    var keep := e => !HasId(e, id);
    FilterMultiset(keep, list);
    Filter(keep, list)
  }

  /** An entry just added can be removed again, giving back the list, when its id was new. */
  lemma AddThenRemoveEntry(list: seq<Json>, input: string, prefix: string, now: string, iso: string)
    requires Trim(input) != []
    requires forall i :: 0 <= i < |list| ==> !HasId(list[i], prefix + now)
    ensures RemoveEntry(AddEntry(list, input, prefix, now, iso).0, prefix + now) == list
  {
    var added := AddEntry(list, input, prefix, now, iso).0;
    assert added == list + [ListEntry(prefix + now, input, iso)];
    FilterAppend(e => !HasId(e, prefix + now), list, [ListEntry(prefix + now, input, iso)]);
    FilterAll(e => !HasId(e, prefix + now), list);
  }

  /**
   * Adding a material id by hand: blank input changes nothing and keeps the
   * input; otherwise the id as typed is appended unless already listed, and
   * the input is cleared.
   */
  function AddMaterial(list: seq<Json>, input: string): (r: (seq<Json>, string))
    ensures Trim(input) == [] ==> r == (list, input)
    ensures Trim(input) != [] ==> r.1 == [] && JStr(input) in r.0
    ensures Trim(input) != [] && JStr(input) in list ==> r.0 == list
    ensures Trim(input) != [] && JStr(input) !in list ==> r.0 == list + [JStr(input)]
  {
    if Trim(input) == [] then (list, input) else (AppendUnique(list, JStr(input)), [])
  }

  /** Adding materials by hand never creates a duplicate. */
  lemma AddMaterialKeepsDistinct(list: seq<Json>, input: string)
    requires Distinct(list)
    ensures Distinct(AddMaterial(list, input).0)
  {
    if Trim(input) != [] {
      AppendUniqueDistinct(list, JStr(input));
    }
  }

  /**
   * "Add all": without datasets nothing changes; otherwise the list followed
   * by every dataset id, each value kept once, at its first position.
   */
  function AddAllMaterials(list: seq<Json>, datasetIds: seq<string>): (r: seq<Json>)
    ensures datasetIds == [] ==> r == list
    ensures datasetIds != [] ==> Distinct(r)
    ensures datasetIds != [] ==> forall x :: x in r <==> x in list || x in StringArray(datasetIds).items
    ensures datasetIds != [] ==> IsSubseq(r, list + StringArray(datasetIds).items)
    ensures datasetIds != [] ==> InFirstOccurrenceOrder(list + StringArray(datasetIds).items, r)
  {
    if datasetIds == [] then list
    else
      var all := list + StringArray(datasetIds).items;
      var r := Dedup(all);
      assert forall x :: x in all ==> x in r by {
        forall x | x in all ensures x in r {
          var i :| 0 <= i < |all| && all[i] == x;
        }
      }
      r
  }

  /** A duplicate-free list is kept as it is, in front of the added ids. */
  lemma AddAllKeepsList(list: seq<Json>, datasetIds: seq<string>)
    requires Distinct(list)
    ensures |AddAllMaterials(list, datasetIds)| >= |list|
    ensures AddAllMaterials(list, datasetIds)[..|list|] == list
  {
    if datasetIds != [] {
      DedupKeepsPrefix(list, StringArray(datasetIds).items);
    } else {
      assert list[..|list|] == list;
    }
  }

  /** Removing a material: every copy of that id goes, every other entry stays in order. */
  function RemoveMaterial(list: seq<Json>, id: string): (r: seq<Json>)
    ensures JStr(id) !in r
    ensures forall i :: 0 <= i < |list| && list[i] != JStr(id) ==> list[i] in r
    ensures multiset(r) == multiset(list)[JStr(id) := 0]
    ensures IsSubseq(r, list)
  {
    Remove(list, JStr(id))
  }

  /** Adding an id by hand and removing it again restores a list that did not hold it. */
  lemma AddThenRemoveMaterial(list: seq<Json>, id: string)
    requires Trim(id) != [] && JStr(id) !in list
    ensures RemoveMaterial(AddMaterial(list, id).0, id) == list
  {
    RemoveAppended(list, JStr(id));
  }

  /** The saved `is_active`: the boolean `true` or the text "true"; anything else is inactive. */
  function SavedIsActive(v: Json): (r: bool)
    ensures r <==> v in {JBool(true), JStr("true")}
  {
    v == JBool(true) || v == JStr("true")
  }

  /**
   * The profile update sent on save: the form's text fields, devices,
   * servers, materials, role and industry, and `is_active` as a boolean.
   */
  function SaveData(f: UserForm): (r: Profile)
    ensures r.Keys == {"display_name", "email", "phone", "department", "position", "bio", "is_active",
      "mobile_devices", "servers", "material_list", "role", "industry"}
    ensures r["is_active"].JBool? && r["is_active"].b == SavedIsActive(f.isActive)
    ensures forall k :: k in {"email", "phone", "department", "position", "bio"} ==> r[k] == JStr(FormText(f, k))
    ensures r["display_name"] == JStr(f.displayName)
    ensures r["mobile_devices"] == JArr(f.devices) && r["servers"] == JArr(f.servers) && r["material_list"] == JArr(f.materials)
    ensures r["role"] == JStr(f.role) && r["industry"] == JStr(f.industry)
  {
    map[
      "display_name" := JStr(f.displayName), "email" := JStr(f.email), "phone" := JStr(f.phone),
      "department" := JStr(f.department), "position" := JStr(f.position), "bio" := JStr(f.bio),
      "is_active" := JBool(SavedIsActive(f.isActive)),
      "mobile_devices" := JArr(f.devices), "servers" := JArr(f.servers), "material_list" := JArr(f.materials),
      "role" := JStr(f.role), "industry" := JStr(f.industry)]
  }

  /** The profile columns that editing and saving hand back unchanged, given well-formed values. */
  predicate WellFormed(p: Profile)
  {
    && (forall k :: k in {"email", "phone", "department", "position", "bio"} ==> HasText(p, k))
    && "is_active" in p && p["is_active"].JBool?
    && "material_list" in p && p["material_list"].JArr?
    && "mobile_devices" in p && p["mobile_devices"].JArr?
    && "servers" in p && p["servers"].JArr?
    && HasText(p, "role") && HasText(p, "industry")
  }

  /** Opening a user's form and saving it untouched writes back the profile's own values. */
  lemma EditThenSaveKeepsProfile(p: Profile, fmt: Json -> string)
    requires WellFormed(p)
    ensures var saved := SaveData(EditForm(ToUserRow(p, fmt)));
      forall k :: k in saved && k != "display_name" ==> saved[k] == p[k]
  {
    var f := EditForm(ToUserRow(p, fmt));
    var saved := SaveData(f);
    SavedTextsKept(p, f);
    SavedOthersKept(p, f);
  }

  /** The five text columns come back as they were. */
  lemma SavedTextsKept(p: Profile, f: UserForm)
    requires WellFormed(p)
    requires forall k :: k in {"email", "phone", "department", "position", "bio"} && HasText(p, k) ==> FormText(f, k) == p[k].s
    ensures forall k :: k in {"email", "phone", "department", "position", "bio"} ==> k in p && SaveData(f)[k] == p[k]
  {
    forall k | k in {"email", "phone", "department", "position", "bio"} ensures k in p && SaveData(f)[k] == p[k] {
      assert HasText(p, k);
    }
  }

  /** The flag, the three lists, the role and the industry come back as they were. */
  lemma SavedOthersKept(p: Profile, f: UserForm)
    requires WellFormed(p)
    requires f.isActive == ActiveOr(p)
    requires f.devices == ListOr(p, "mobile_devices") && f.servers == ListOr(p, "servers") && f.materials == ListOr(p, "material_list")
    requires f.role == TextOr(p, "role", DEFAULT_ROLE) && f.industry == TextOr(p, "industry", CUSTOM_INDUSTRY)
    ensures forall k :: k in {"is_active", "mobile_devices", "servers", "material_list", "role", "industry"} ==> SaveData(f)[k] == p[k]
  {
    var saved := SaveData(f);
    assert saved["is_active"] == p["is_active"];
  }
}
