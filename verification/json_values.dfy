/** JSON values as JavaScript sees them after `JSON.parse`, and JavaScript truthiness. */
module JsonValues {

  /** Numbers are integers: no modelled operation depends on fractions. */
  datatype Json =
    | JNull
    | JBool(b: bool)
    | JNum(n: int)
    | JStr(s: string)
    | JArr(items: seq<Json>)
    | JObj(fields: map<string, Json>)

  /**
   * A string field that holds JSON text, seen through `JSON.parse`: the
   * empty string, text that parses to `value`, or other text `raw` that
   * `JSON.parse` rejects. `JSON.stringify(v)` is `Parsed(v)`.
   */
  datatype JsonText = Blank | Parsed(value: Json) | Unparsable(raw: string)

  /** JavaScript's `!!v` for a parsed value: null, false, 0 and "" are falsy. */
  predicate Truthy(j: Json)
  {
    match j
    case JNull => false
    case JBool(b) => b
    case JNum(n) => n != 0
    case JStr(s) => s != ""
    case JArr(_) => true
    case JObj(_) => true
  }

  /** `typeof v === "object" && v !== null && !Array.isArray(v)`. */
  predicate IsObject(j: Json) { j.JObj? }

  /** The string array `["a", "b"]` as a JSON value, i.e. what `JSON.stringify` of a string list encodes. */
  function StringArray(xs: seq<string>): (r: Json)
    ensures r.JArr? && |r.items| == |xs|
    ensures forall i :: 0 <= i < |xs| ==> r.items[i] == JStr(xs[i])
  {
    JArr(seq(|xs|, i requires 0 <= i < |xs| => JStr(xs[i])))
  }

  /** The text parses to an array holding exactly the strings `xs`, in order. */
  predicate HoldsStrings(t: JsonText, xs: seq<string>)
  {
    t.Parsed? && t.value.JArr? && |t.value.items| == |xs| && forall i :: 0 <= i < |xs| ==> t.value.items[i] == JStr(xs[i])
  }

  /** Reading a JSON array back as a string list, when every item is a string. */
  function AsStrings(items: seq<Json>): (r: seq<string>)
    requires forall i :: 0 <= i < |items| ==> items[i].JStr?
    ensures |r| == |items|
    ensures forall i :: 0 <= i < |items| ==> items[i] == JStr(r[i])
  {
    seq(|items|, i requires 0 <= i < |items| => items[i].s)
  }

  /** Encoding a string list and reading it back gives the same list. */
  lemma StringArrayRoundTrip(xs: seq<string>)
    ensures StringArray(xs).JArr?
    ensures forall i :: 0 <= i < |StringArray(xs).items| ==> StringArray(xs).items[i].JStr?
    ensures AsStrings(StringArray(xs).items) == xs
  {
  }
}
