/**
 * The dashboard's task-creation form store: the current step, the form
 * fields (a JSON object, so that partial updates are key overwrites), the
 * comment templates inside it, and saving the progress to local storage
 * and loading it back. The stored text is `None` when the key is absent.
 */
module DashBoardStore {
  import opened Base
  import opened Seqs
  import opened JsonValues

  type Form = map<string, Json>

  const FIRST_STEP := "采集任务"
  const STEPS := ["采集任务", "分析要求", "回复模板"]

  /** A default template: empty content, checked, editing only when it is the first. */
  function DefaultTemplate(id: string, editing: bool): Json
  {
    JObj(map["id" := JStr(id), "content" := JStr(""), "isEditing" := JBool(editing), "checked" := JBool(true)])
  }

  /** `defaultFormData`; the task date and time start undefined and so have no key. */
  const DEFAULT_FORM: Form := map[
    "currentStep" := JStr(FIRST_STEP),
    "targetEmail" := JStr(""),
    "sortBy" := JStr("综合"),
    "keyword" := JStr(""),
    "timeRange" := JStr("不限"),
    "noteCount" := JNum(10),
    "noteType" := JStr("图文"),
    "userProfileLevel" := JArr([]),
    "profileSentence" := JStr(""),
    "commentTemplates" := JArr([DefaultTemplate("1", true), DefaultTemplate("2", false), DefaultTemplate("3", false)]),
    "messageTemplates" := JArr([DefaultTemplate("1", true), DefaultTemplate("2", false)])]

  /** The store: the current step (whatever a loaded save held) and the form. */
  datatype DashState = DashState(step: Json, form: Form)

  const INITIAL := DashState(JStr(FIRST_STEP), DEFAULT_FORM)

  /**
   * What every reachable state satisfies: the step is set, every default
   * field is present and the comment templates are a list.
   */
  predicate WellFormed(s: DashState)
  {
    Truthy(s.step) && DEFAULT_FORM.Keys <= s.form.Keys && HasTemplates(s.form)
  }

  predicate HasTemplates(f: Form)
  {
    "commentTemplates" in f && f["commentTemplates"].JArr?
  }

  lemma InitialWellFormed()
    ensures WellFormed(INITIAL)
  {
  }

  /** `setCurrentStep`: the step and the form's copy of it change together. */
  function SetCurrentStep(s: DashState, step: string): (r: DashState)
    requires step in STEPS
    ensures r.step == JStr(step) && "currentStep" in r.form && r.form["currentStep"] == r.step
    ensures forall k :: k in s.form && k != "currentStep" ==> k in r.form && r.form[k] == s.form[k]
    ensures WellFormed(s) ==> WellFormed(r)
  {
    DashState(JStr(step), s.form["currentStep" := JStr(step)])
  }

  /** `updateFormData`: the given keys take the given values; every other key keeps its value. */
  function UpdateFormData(s: DashState, data: Form): (r: DashState)
    ensures r.step == s.step
    ensures r.form.Keys == s.form.Keys + data.Keys
    ensures forall k :: k in data ==> r.form[k] == data[k]
    ensures forall k :: k in s.form && k !in data ==> r.form[k] == s.form[k]
  {
    s.(form := s.form + data)
  }

  /** `updateField` is `updateFormData` with one key. */
  function UpdateField(s: DashState, field: string, value: Json): (r: DashState)
    ensures r == UpdateFormData(s, map[field := value])
    ensures r.form.Keys == s.form.Keys + {field} && r.form[field] == value
  {
    s.(form := s.form[field := value])
  }

  /** An update that keeps the templates a list keeps the state well formed. */
  lemma UpdateKeepsWellFormed(s: DashState, data: Form)
    requires WellFormed(s)
    requires "commentTemplates" in data ==> data["commentTemplates"].JArr?
    ensures WellFormed(UpdateFormData(s, data))
  {
  }

  function Templates(f: Form): (r: seq<Json>)
    requires HasTemplates(f)
  {
    f["commentTemplates"].items
  }

  /** A template's fields as the spread `{...t}` sees them. */
  function Fields(t: Json): (r: map<string, Json>)
    ensures t.JObj? ==> r == t.fields
  {
    if t.JObj? then t.fields else map[]
  }

  /**
   * `updateCommentTemplate`: the template at `index` takes the given fields
   * over its own; an index one past the end adds a template of just those
   * fields; an index further out writes there and leaves holes between,
   * which read back as `null`; a negative index changes no element. Every
   * other template is untouched.
   */
  function UpdateCommentTemplate(s: DashState, index: int, patch: map<string, Json>): (r: DashState)
    requires HasTemplates(s.form)
    ensures HasTemplates(r.form) && r.step == s.step
    ensures forall k :: k in s.form && k != "commentTemplates" ==> k in r.form && r.form[k] == s.form[k]
    ensures 0 <= index < |Templates(s.form)| ==>
      |Templates(r.form)| == |Templates(s.form)|
      && Templates(r.form)[index] == JObj(Fields(Templates(s.form)[index]) + patch)
      && (forall i :: 0 <= i < |Templates(s.form)| && i != index ==> Templates(r.form)[i] == Templates(s.form)[i])
    ensures index == |Templates(s.form)| ==> Templates(r.form) == Templates(s.form) + [JObj(patch)]
    ensures index > |Templates(s.form)| ==>
      |Templates(r.form)| == index + 1
      && Templates(r.form)[..|Templates(s.form)|] == Templates(s.form)
      && (forall i :: |Templates(s.form)| <= i < index ==> Templates(r.form)[i] == JNull)
      && Templates(r.form)[index] == JObj(patch)
    ensures index < 0 ==> Templates(r.form) == Templates(s.form)
    ensures WellFormed(s) ==> WellFormed(r)
  {
    var list := Templates(s.form);
    var updated :=
      if 0 <= index < |list| then list[index := JObj(Fields(list[index]) + patch)]
      else if index >= |list| then list + Holes(index - |list|) + [JObj(patch)]
      else list;
    s.(form := s.form["commentTemplates" := JArr(updated)])
  }

  /** The holes an assignment past the end of an array leaves, as they are serialised. */
  function Holes(n: nat): (r: seq<Json>)
    ensures |r| == n && forall i :: 0 <= i < n ==> r[i] == JNull
  {
    seq(n, _ => JNull)
  }

  /** `addCommentTemplate`: the template goes at the end. */
  function AddCommentTemplate(s: DashState, t: Json): (r: DashState)
    requires HasTemplates(s.form)
    ensures HasTemplates(r.form) && Templates(r.form) == Templates(s.form) + [t]
    ensures WellFormed(s) ==> WellFormed(r)
  {
    s.(form := s.form["commentTemplates" := JArr(Templates(s.form) + [t])])
  }

  /** The template's `id`, when it is an object that has one. */
  predicate HasId(t: Json, id: string)
  {
    t.JObj? && "id" in t.fields && t.fields["id"] == JStr(id)
  }

  /**
   * `deleteCommentTemplate`: every template with that id goes, the rest stay
   * in order, each as often as before; every other form key is untouched.
   */
  function DeleteCommentTemplate(s: DashState, id: string): (r: DashState)
    requires HasTemplates(s.form)
    ensures HasTemplates(r.form) && r.step == s.step
    ensures forall k :: k in s.form && k != "commentTemplates" ==> k in r.form && r.form[k] == s.form[k]
    ensures forall t :: t in Templates(r.form) ==> !HasId(t, id)
    ensures forall t :: t in Templates(s.form) && !HasId(t, id) ==> t in Templates(r.form)
    ensures forall t :: multiset(Templates(r.form))[t] == if HasId(t, id) then 0 else multiset(Templates(s.form))[t]
    ensures IsSubseq(Templates(r.form), Templates(s.form))
    ensures WellFormed(s) ==> WellFormed(r)
  {
    var keep := (t: Json) => !HasId(t, id);
    FilterMultiset(keep, Templates(s.form));
    s.(form := s.form["commentTemplates" := JArr(Filter(keep, Templates(s.form)))])
  }

  /** Deleting the id of a template just added, when no other had it, gives the list back. */
  lemma DeleteUndoesAdd(s: DashState, t: Json, id: string)
    requires HasTemplates(s.form) && HasId(t, id)
    requires forall u :: u in Templates(s.form) ==> !HasId(u, id)
    ensures Templates(DeleteCommentTemplate(AddCommentTemplate(s, t), id).form) == Templates(s.form)
  {
    var keep := (u: Json) => !HasId(u, id);
    var r := DeleteCommentTemplate(AddCommentTemplate(s, t), id);
    assert Templates(r.form) == Filter(keep, Templates(s.form) + [t]);
    FilterAppend(keep, Templates(s.form), [t]);
    FilterAll(keep, Templates(s.form));
    assert Filter(keep, [t]) == [];
  }

  /** `resetForm`: the first step and the default form. */
  function ResetForm(s: DashState): (r: DashState)
    ensures r == INITIAL && WellFormed(r)
  {
    INITIAL
  }

  /** `saveProgress`: the step, the form and the time, as JSON text. */
  function SaveProgress(s: DashState, iso: string): (r: JsonText)
    ensures r.Parsed? && r.value.JObj? && r.value.fields.Keys == {"currentStep", "formData", "savedAt"}
    ensures r.value.fields["currentStep"] == s.step && r.value.fields["formData"] == JObj(s.form)
  {
    Parsed(JObj(map["currentStep" := s.step, "formData" := JObj(s.form), "savedAt" := JStr(iso)]))
  }

  /** The saved `formData` fields: none unless it is an object. */
  function SavedFields(v: Json): map<string, Json>
  {
    var form := Member(v, "formData");
    if form.Some? && form.value.JObj? then form.value.fields else map[]
  }

  /** `obj.key` of a parsed value: present only on an object holding the key. */
  function Member(v: Json, k: string): (r: Option<Json>)
    ensures r.Some? <==> v.JObj? && k in v.fields
  {
    if v.JObj? && k in v.fields then Some(v.fields[k]) else None
  }

  /** Some text is stored, it parses, and it is not `null`: the state is replaced. */
  predicate Replaces(saved: Option<JsonText>)
  {
    saved.Some? && saved.value.Parsed? && !saved.value.value.JNull?
  }

  /** `x > 0` for a JSON `length` member: a positive number, or `true`. */
  predicate PositiveLength(j: Json)
  {
    (j.JNum? && j.n > 0) || j == JBool(true)
  }

  /**
   * The logging after a load throws: the saved templates are truthy with a
   * positive `length`, and are either no array, so that `.map` is missing,
   * or an array holding a `null`, whose `t.id` cannot be read.
   */
  predicate LogThrows(v: Json)
  {
    var form := Member(v, "formData");
    var templates := if form.Some? then Member(form.value, "commentTemplates") else None;
    templates.Some? &&
      match templates.value
      case JArr(items) => JNull in items
      case JStr(text) => text != []
      case JObj(fields) => "length" in fields && PositiveLength(fields["length"])
      case _ => false
  }

  /**
   * `loadProgress`: nothing stored, text that does not parse, or a stored
   * `null` (reading a key of it throws) loads nothing and answers false.
   * Otherwise the state becomes the saved step, or the first step when it is
   * falsy, with the saved form fields laid over the default form; the answer
   * is true unless the logging of the loaded templates then throws.
   */
  function LoadProgress(s: DashState, saved: Option<JsonText>): (r: (bool, DashState))
    ensures !Replaces(saved) ==> r == (false, s)
    ensures r.0 <==> Replaces(saved) && !LogThrows(saved.value.value)
    ensures Replaces(saved) ==> DEFAULT_FORM.Keys <= r.1.form.Keys && Truthy(r.1.step)
    ensures Replaces(saved) ==> forall k :: k in DEFAULT_FORM && !(Member(saved.value.value, "formData").Some? && Member(saved.value.value, "formData").value.JObj? && k in Member(saved.value.value, "formData").value.fields) ==> r.1.form[k] == DEFAULT_FORM[k]
    ensures Replaces(saved) ==> var fields := SavedFields(saved.value.value);
      r.1.form.Keys == DEFAULT_FORM.Keys + fields.Keys && forall k :: k in fields ==> r.1.form[k] == fields[k]
    ensures Replaces(saved) ==> var step := Member(saved.value.value, "currentStep");
      r.1.step == (if step.Some? && Truthy(step.value) then step.value else JStr(FIRST_STEP))
  {
    match saved
    case Some(Parsed(v)) =>
      if v.JNull? then (false, s)
      else
        var step := Member(v, "currentStep");
        var form := Member(v, "formData");
        var fields := if form.Some? && form.value.JObj? then form.value.fields else map[];
        (!LogThrows(v), DashState(if step.Some? && Truthy(step.value) then step.value else JStr(FIRST_STEP), DEFAULT_FORM + fields))
    case _ => (false, s)
  }

  /**
   * Loading what was saved from a well-formed state restores that state
   * exactly; the answer is true unless a comment template is `null`, the
   * hole an update past the end leaves.
   */
  lemma LoadAfterSave(s: DashState, other: DashState, iso: string)
    requires WellFormed(s)
    ensures LoadProgress(other, Some(SaveProgress(s, iso))) == (JNull !in Templates(s.form), s)
  {
    var merged := DEFAULT_FORM + s.form;
    assert merged.Keys == s.form.Keys;
    assert forall k :: k in merged ==> merged[k] == s.form[k];
    assert merged == s.form;
  }

  /** An update past the end, saved and loaded again, restores the state but answers false. */
  lemma HoleFailsLoad(s: DashState, index: int, patch: map<string, Json>, other: DashState, iso: string)
    requires WellFormed(s) && index > |Templates(s.form)|
    ensures var u := UpdateCommentTemplate(s, index, patch);
      LoadProgress(other, Some(SaveProgress(u, iso))) == (false, u)
  {
    var u := UpdateCommentTemplate(s, index, patch);
    assert Templates(u.form)[|Templates(s.form)|] == JNull;
    LoadAfterSave(u, other, iso);
  }

  /** `hasSavedProgress`: something non-empty is stored. */
  predicate HasSavedProgress(saved: Option<JsonText>)
  {
    saved.Some? && !saved.value.Blank?
  }

  /** `clearSavedProgress`: the stored progress is removed, after which nothing loads. */
  function ClearSavedProgress(saved: Option<JsonText>): (r: Option<JsonText>)
    ensures !HasSavedProgress(r)
    ensures forall s :: LoadProgress(s, r) == (false, s)
  {
    None
  }
}
