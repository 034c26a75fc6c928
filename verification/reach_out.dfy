/**
 * The reach-out page: the unsent comments it lists, the selection of
 * comments (row checkboxes, the select-all button, the intents handed over
 * from the analysis page), the guard before a reach-out run is triggered,
 * and the email required by the template actions. Session storage, the
 * template store and the pipeline trigger are inputs.
 */
module ReachOut {
  import opened Base
  import opened Strings
  import opened Seqs

  /** A comment record as the store returns it; absent fields are `None`. */
  datatype CommentRecord = CommentRecord(
    id: Option<string>, commentId: Option<string>, content: Option<string>,
    authorName: Option<string>, author: Option<string>, isSent: Option<int>)

  /** A listed comment. */
  datatype Comment = Comment(commentId: string, content: string, author: string, sent: bool)

  /** `a || b || ''` over optional texts. */
  function FirstText(a: Option<string>, b: Option<string>): (r: string)
    ensures a.Some? && a.value != "" ==> r == a.value
    ensures !(a.Some? && a.value != "") && b.Some? ==> r == b.value
    ensures !(a.Some? && a.value != "") && b.None? ==> r == ""
  {
    if a.Some? && a.value != "" then a.value else b.GetOr("")
  }

  /** A record as a listed comment: the id falls back to the comment id, the author name to the author; sent means `is_sent` is 1. */
  function Format(c: CommentRecord): (r: Comment)
    ensures r.sent <==> c.isSent == Some(1)
    ensures c.id.Some? && c.id.value != "" ==> r.commentId == c.id.value
    ensures !(c.id.Some? && c.id.value != "") ==> r.commentId == c.commentId.GetOr("")
    ensures r.content == (if c.content.Some? then c.content.value else "")
    ensures c.authorName.Some? && c.authorName.value != "" ==> r.author == c.authorName.value
    ensures !(c.authorName.Some? && c.authorName.value != "") ==> r.author == c.author.GetOr("")
  {
    Comment(FirstText(c.id, c.commentId), c.content.GetOr(""), FirstText(c.authorName, c.author), c.isSent == Some(1))
  }

  predicate Unsent(c: Comment) { !c.sent }

  predicate UnsentRecord(c: CommentRecord) { c.isSent != Some(1) }

  /**
   * Only comments that were not sent are listed, in the store's order: the
   * list is the records whose `is_sent` is not 1, each formatted, one entry
   * per record.
   */
  function UnsentComments(records: seq<CommentRecord>): (r: seq<Comment>)
    ensures |r| <= |records|
    ensures forall c :: c in r ==> !c.sent
    ensures forall i :: 0 <= i < |records| && records[i].isSent != Some(1) ==> Format(records[i]) in r
    ensures r == Map(Format, Filter(UnsentRecord, records))
  {
    var formatted := Map(Format, records);
    var r := Filter(Unsent, formatted);
    assert forall i :: 0 <= i < |records| ==> formatted[i] == Format(records[i]);
    FormatThenFilter(records);
    r
  }

  /** Formatting and then dropping sent comments is dropping sent records and then formatting. */
  lemma {:induction false} FormatThenFilter(records: seq<CommentRecord>)
    ensures Filter(Unsent, Map(Format, records)) == Map(Format, Filter(UnsentRecord, records))
    decreases |records|
  {
    if records != [] {
      var m := Map(Format, records);
      assert m[1..] == Map(Format, records[1..]);
      FormatThenFilter(records[1..]);
      var kept := Filter(UnsentRecord, records[1..]);
      if UnsentRecord(records[0]) {
        assert Filter(UnsentRecord, records) == [records[0]] + kept;
        MapAppend(Format, [records[0]], kept);
      } else {
        assert Filter(UnsentRecord, records) == kept;
      }
    }
  }

  // ---------------------------------------------------------------------
  // Selection
  // ---------------------------------------------------------------------

  /** Checking a row appends its id; unchecking removes every occurrence. */
  function CheckComment(selected: seq<string>, id: string, checked: bool): (r: seq<string>)
    ensures checked ==> r == selected + [id]
    ensures !checked ==> id !in r && IsSubseq(r, selected)
    ensures !checked ==> forall x :: x in selected && x != id ==> x in r
    ensures !checked ==> multiset(r) == multiset(selected)[id := 0]
  {
    if checked then selected + [id] else Remove(selected, id)
  }

  /** Unchecking undoes checking a row that was not selected. */
  lemma UncheckUndoesCheck(selected: seq<string>, id: string)
    requires id !in selected
    ensures CheckComment(CheckComment(selected, id, true), id, false) == selected
  {
    RemoveAppended(selected, id);
  }

  /** Where the rows come from: the fetched comments or the intents handed over. */
  datatype Source = Comments | Intents

  /** An intent handed over from the analysis page; only its comment id matters here. */
  datatype Intent = Intent(commentId: string, author: string, content: string, intent: string)

  datatype Selection = Selection(selected: seq<string>, source: Source, comments: seq<Comment>, intents: seq<Intent>)

  /** The non-empty ids, in order. */
  function NonEmptyIds(ids: seq<string>): (r: seq<string>)
    ensures IsSubseq(r, ids)
    ensures forall x :: x in r <==> x in ids && x != ""
    ensures multiset(r) == multiset(ids)["" := 0]
  {
    Remove(ids, "")
  }

  /** The comment ids of the active source. */
  function SourceIds(s: Selection): seq<string>
  {
    match s.source
    case Intents => Map((i: Intent) => i.commentId, s.intents)
    case Comments => Map((c: Comment) => c.commentId, s.comments)
  }

  /** The select-all button: it clears a non-empty selection, and otherwise selects every non-empty id of the active source. */
  function ToggleAll(s: Selection): (r: Selection)
    ensures r.source == s.source && r.comments == s.comments && r.intents == s.intents
    ensures |s.selected| > 0 ==> r.selected == []
    ensures |s.selected| == 0 ==> forall x :: x in r.selected <==> x in SourceIds(s) && x != ""
    ensures |s.selected| == 0 ==> IsSubseq(r.selected, SourceIds(s)) && multiset(r.selected) == multiset(SourceIds(s))["" := 0]
  {
    if |s.selected| > 0 then s.(selected := [])
    else s.(selected := NonEmptyIds(SourceIds(s)))
  }

  /** Pressing the button twice on an empty selection comes back empty. */
  lemma ToggleAllTwice(s: Selection)
    requires s.selected == [] && NonEmptyIds(SourceIds(s)) != []
    ensures ToggleAll(ToggleAll(s)) == s
  {
  }

  /** A stored value: missing, unusable (invalid JSON or not an array), or an array. */
  datatype Stored<T> = Missing | Unusable | Items(items: seq<T>)

  /**
   * What arrives from the analysis page. A non-empty intent array replaces
   * the intents, selects their non-empty comment ids and switches to the
   * intents; only when no intents were stored at all does a non-empty array
   * of comment ids become the selection, over the comments.
   */
  function Receive(s: Selection, storedIntents: Stored<Intent>, storedIds: Stored<string>): (r: Selection)
    ensures storedIntents.Items? && |storedIntents.items| > 0 ==>
      r == s.(intents := storedIntents.items, source := Intents,
        selected := NonEmptyIds(Map((i: Intent) => i.commentId, storedIntents.items)))
    ensures storedIntents.Missing? && storedIds.Items? && |storedIds.items| > 0 ==>
      r == s.(selected := storedIds.items, source := Comments)
    ensures r != s ==> (storedIntents.Items? && |storedIntents.items| > 0) || (storedIntents.Missing? && storedIds.Items? && |storedIds.items| > 0)
  {
    match storedIntents
    case Items(xs) =>
      if |xs| > 0 then
        s.(intents := xs, source := Intents, selected := NonEmptyIds(Map((i: Intent) => i.commentId, xs)))
      else s
    case Unusable => s
    case Missing =>
      if storedIds.Items? && |storedIds.items| > 0 then s.(selected := storedIds.items, source := Comments)
      else s
  }

  /** After intents arrive, the select-all button clears their selection and then selects the same ids again. */
  lemma ReceivedIntentsAreSelectAll(s: Selection, xs: seq<Intent>)
    requires |xs| > 0 && NonEmptyIds(Map((i: Intent) => i.commentId, xs)) != []
    ensures var r := Receive(s, Items(xs), Missing);
      ToggleAll(ToggleAll(r)) == r
  {
  }

  // ---------------------------------------------------------------------
  // Actions
  // ---------------------------------------------------------------------

  const MSG_SELECT_ONE := "请至少选择一条评论"
  const REPLIER_DAG := "xhs_comments_template_replier"

  /** The configuration sent with a reach-out run. */
  datatype ReachOutConf = ReachOutConf(commentIds: seq<string>, email: string)

  datatype ReachOutStep = Warn(text: string) | Trigger(dag: string, runId: string, conf: ReachOutConf)

  /** With nothing selected the page warns and triggers nothing; otherwise it triggers a run over the selection. */
  function ReachOutAction(selected: seq<string>, targetEmail: Option<string>, runId: string): (r: ReachOutStep)
    ensures r.Warn? <==> selected == []
    ensures r.Trigger? ==> r.conf.commentIds == selected && r.dag == REPLIER_DAG
    ensures r.Trigger? ==> r.conf.email == targetEmail.GetOr("")
  {
    if |selected| == 0 then Warn(MSG_SELECT_ONE)
    else Trigger(REPLIER_DAG, runId, ReachOutConf(selected, targetEmail.GetOr("")))
  }

  /** A template action: refused for want of an email, skipped, or sent to the store. */
  datatype TemplateStep = Refused(text: string) | Skipped | Send

  const MSG_NO_EMAIL_CREATE := "用户邮箱不能为空，无法创建模板"
  const MSG_NO_EMAIL_UPDATE := "用户邮箱不能为空，无法更新模板"
  const MSG_NO_EMAIL_DELETE := "用户邮箱不能为空，无法删除模板"

  function CreateTemplate(email: string): (r: TemplateStep)
    ensures r.Send? <==> email != ""
    ensures r.Refused? <==> email == ""
  {
    if email == "" then Refused(MSG_NO_EMAIL_CREATE) else Send
  }

  /** Updating with no template being edited does nothing; the email is checked after that. */
  function UpdateTemplate(editing: bool, email: string): (r: TemplateStep)
    ensures r.Send? <==> editing && email != ""
    ensures r.Skipped? <==> !editing
  {
    if !editing then Skipped
    else if email == "" then Refused(MSG_NO_EMAIL_UPDATE)
    else Send
  }

  function DeleteTemplate(email: string): (r: TemplateStep)
    ensures r.Send? <==> email != ""
    ensures r.Refused? <==> email == ""
  {
    if email == "" then Refused(MSG_NO_EMAIL_DELETE) else Send
  }
}
