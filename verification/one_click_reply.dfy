/**
 * The one-click reply template panel: reading the template list from the
 * store's answer, the selection of templates (select all, deselect, row
 * checkboxes, the header checkbox), the checks before a template is added
 * or updated, batch delete, and the image accepted for a template. Every
 * change of the selection is also reported to the parent; the model
 * returns the reported list.
 */
module OneClickReply {
  import opened Base
  import opened Strings
  import opened Seqs
  import opened Uploads

  datatype Template = Template(id: int, content: string, imageUrls: Option<string>)

  /** The store's `data`: the templates themselves, a page record holding them, or nothing usable. */
  datatype TemplateData = AsArray(items: seq<Template>) | AsPage(records: Option<seq<Template>>) | NoData

  /** `Array.isArray(data) ? data : data?.records || []`. */
  function TemplatesOf(data: TemplateData): (r: seq<Template>)
    ensures data.AsArray? ==> r == data.items
    ensures data.AsPage? && data.records.Some? ==> r == data.records.value
    ensures data.NoData? || (data.AsPage? && data.records.None?) ==> r == []
  {
    match data
    case AsArray(items) => items
    case AsPage(records) => records.GetOr([])
    case NoData => []
  }

  function Ids(templates: seq<Template>): (r: seq<int>)
    ensures |r| == |templates|
    ensures forall i :: 0 <= i < |templates| ==> r[i] == templates[i].id
  {
    Map((t: Template) => t.id, templates)
  }

  /**
   * The panel's selection, and the list last reported to the parent. Select
   * all does nothing for an empty list; deselect always clears.
   */
  function SelectAll(templates: seq<Template>, selected: seq<int>): (r: (seq<int>, Option<seq<int>>))
    ensures |templates| == 0 ==> r == (selected, None)
    ensures |templates| > 0 ==> r.0 == Ids(templates) && r.1 == Some(r.0)
  {
    if |templates| > 0 then (Ids(templates), Some(Ids(templates))) else (selected, None)
  }

  function DeselectAll(): (r: (seq<int>, seq<int>))
    ensures r.0 == [] && r.1 == []
  {
    ([], [])
  }

  /** A row checkbox: checking appends the id, unchecking drops every occurrence; the new list is reported. */
  function CheckTemplate(selected: seq<int>, id: int, checked: bool): (r: (seq<int>, seq<int>))
    ensures r.1 == r.0
    ensures checked ==> r.0 == selected + [id]
    ensures !checked ==> id !in r.0 && IsSubseq(r.0, selected)
    ensures !checked ==> forall x :: x in selected && x != id ==> x in r.0
    ensures !checked ==> multiset(r.0) == multiset(selected)[id := 0]
  {
    var ids := if checked then selected + [id] else Remove(selected, id);
    (ids, ids)
  }

  /** The header checkbox: checked, indeterminate, or neither. */
  datatype HeaderState = HeaderState(checked: bool, indeterminate: bool)

  function Header(templates: seq<Template>, selected: seq<int>): (r: HeaderState)
    ensures r.checked <==> |selected| == |templates| && |templates| > 0
    ensures r.indeterminate <==> 0 < |selected| < |templates|
    ensures !(r.checked && r.indeterminate)
  {
    HeaderState(|selected| == |templates| && |templates| > 0, |selected| > 0 && |selected| < |templates|)
  }

  /** Select all checks the header of a non-empty list; deselect leaves it neither checked nor indeterminate. */
  lemma HeaderAfterSelectAll(templates: seq<Template>, selected: seq<int>)
    ensures |templates| > 0 ==> Header(templates, SelectAll(templates, selected).0) == HeaderState(true, false)
    ensures Header(templates, DeselectAll().0) == HeaderState(false, false)
  {
  }

  /** Checking a new id and then unchecking it gives back the selection. */
  lemma {:induction false} UncheckUndoesCheck(selected: seq<int>, id: int)
    requires id !in selected
    ensures CheckTemplate(CheckTemplate(selected, id, true).0, id, false).0 == selected
  {
    RemoveAppended(selected, id);
  }

  const MSG_NO_EMAIL_CREATE := "用户邮箱不能为空，无法创建模板"
  const MSG_EMPTY_CONTENT := "模板内容不能为空"
  const MSG_SELECT_TO_DELETE := "请先选择要删除的模板"

  /** What a template action does before it reaches the store. */
  datatype Check = Refused(text: string) | Skipped | Proceed

  /** Adding needs an email, then content that is not blank. */
  function CheckAdd(email: Option<string>, content: string): (r: Check)
    ensures r.Proceed? <==> email.Some? && email.value != "" && Trim(content) != ""
    ensures (email.None? || email.value == "") ==> r == Refused(MSG_NO_EMAIL_CREATE)
    ensures r != Skipped
  {
    if email.None? || email.value == "" then Refused(MSG_NO_EMAIL_CREATE)
    else if Trim(content) == "" then Refused(MSG_EMPTY_CONTENT)
    else Proceed
  }

  /** Updating silently does nothing without a template being edited or an email; blank content is refused. */
  function CheckUpdate(editing: bool, email: Option<string>, content: string): (r: Check)
    ensures r.Proceed? <==> editing && email.Some? && email.value != "" && Trim(content) != ""
    ensures r.Skipped? <==> !editing || email.None? || email.value == ""
  {
    if !editing || email.None? || email.value == "" then Skipped
    else if Trim(content) == "" then Refused(MSG_EMPTY_CONTENT)
    else Proceed
  }

  /** Batch delete: refused without an email or a selection; after it the selection is cleared and reported. */
  function BatchDelete(email: Option<string>, selected: seq<int>): (r: (Check, seq<int>))
    ensures r.0.Proceed? <==> email.Some? && email.value != "" && |selected| > 0
    ensures r.0.Proceed? ==> r.1 == []
    ensures !r.0.Proceed? ==> r == (Refused(MSG_SELECT_TO_DELETE), selected)
  {
    if email.None? || email.value == "" || |selected| == 0 then (Refused(MSG_SELECT_TO_DELETE), selected)
    else (Proceed, [])
  }

  datatype ImageCheck = ImageAccepted | NoEmail | NotAnImage | ImageTooLarge

  /** An image needs an email, a type starting with `image/`, and a size below 5 MiB, checked in that order. */
  function CheckImage(email: Option<string>, f: PickedFile): (r: ImageCheck)
    ensures r == ImageAccepted <==> email.Some? && email.value != "" && StartsWith(f.mimeType, "image/") && f.size < MAX_FILE_MIB * 1024 * 1024
    ensures r == NotAnImage ==> !StartsWith(f.mimeType, "image/")
    ensures r == ImageTooLarge ==> f.size >= 5_242_880
  {
    if email.None? || email.value == "" then NoEmail
    else if !StartsWith(f.mimeType, "image/") then NotAnImage
    else if f.size as real / 1024.0 / 1024.0 < MAX_FILE_MIB as real then ImageAccepted
    else ImageTooLarge
  }
}
