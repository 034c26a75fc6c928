/**
 * A row of the `user_profiles` table as the front end receives it: a JSON
 * object keyed by column name (`user_id`, `email`, `role`, `is_active`,
 * `material_list`, `industry`, ...). A key that is absent is `undefined`.
 */
module Profiles {
  import opened Base
  import opened JsonValues

  type Profile = map<string, Json>

  /** `profile[k]`, with `None` for `undefined`. */
  function Get(p: Profile, k: string): (r: Option<Json>)
    ensures r.Some? <==> k in p
    ensures r.Some? ==> r.value == p[k]
  {
    if k in p then Some(p[k]) else None
  }

  /** `profile[k] || d` for a text column: a non-empty string, or else the default. */
  function TextOr(p: Profile, k: string, d: string): (r: string)
    ensures r == d || (k in p && p[k] == JStr(r) && r != "")
    ensures k in p && p[k].JStr? && p[k].s != "" ==> r == p[k].s
  {
    if k in p && p[k].JStr? && p[k].s != "" then p[k].s else d
  }

  /** `profile[k] || []` for a list column. */
  function ListOr(p: Profile, k: string): (r: seq<Json>)
    ensures k in p && p[k].JArr? ==> r == p[k].items
    ensures !(k in p && p[k].JArr?) ==> r == []
  {
    if k in p && p[k].JArr? then p[k].items else []
  }

  /** `profile.is_active !== undefined ? profile.is_active : true`. */
  function ActiveOr(p: Profile): (r: Json)
    ensures "is_active" !in p ==> r == JBool(true)
    ensures "is_active" in p ==> r == p["is_active"]
  {
    if "is_active" in p then p["is_active"] else JBool(true)
  }

  /** `profile?.role === 'admin'`. */
  predicate IsAdmin(p: Option<Profile>)
  {
    p.Some? && "role" in p.value && p.value["role"] == JStr("admin")
  }
}
