/**
 * The invitation-code management page: the status badge of each row, which
 * rows may be selected or deleted, and the batch actions on the selection
 * (delete, send, copy). The page keeps the store's rows, the search query,
 * the rows shown and the selected ids; after a successful change the list
 * is fetched again. The outcome of each store call is an input.
 */
module InvitationCodePage {
  import opened Base
  import opened Strings
  import opened Seqs
  import opened InvitationCodeService

  const MSG_SELECT_TO_DELETE := "请先选择要删除的邀请码"
  const MSG_SELECT_TO_SEND := "请先选择要发送的邀请码"
  const MSG_SELECT_TO_COPY := "请先选择要复制的邀请码"
  const MSG_GENERATED := "邀请码生成成功"
  const MSG_DELETED := "邀请码删除成功"

  /** What the status column shows. */
  datatype Badge = Badge(status: string, text: string)

  /** Available is green 可用, sent is blue 已发送, and any other status reads 已使用. */
  function StatusBadge(status: int): (r: Badge)
    ensures status == AVAILABLE <==> r == Badge("success", "可用")
    ensures status == SENT <==> r == Badge("processing", "已发送")
    ensures status != AVAILABLE && status != SENT <==> r == Badge("default", "已使用")
  {
    if status == AVAILABLE then Badge("success", "可用")
    else if status == SENT then Badge("processing", "已发送")
    else Badge("default", "已使用")
  }

  /** Both the row's checkbox and its delete button are enabled only while the code is available. */
  predicate Selectable(c: Code)
  {
    c.status == AVAILABLE
  }

  /** A selectable row is exactly one whose badge reads 可用. */
  lemma SelectableIffAvailableBadge(c: Code)
    ensures Selectable(c) <==> StatusBadge(c.status).text == "可用"
  {
  }

  datatype Page = Page(store: seq<Code>, query: string, shown: seq<Code>, selected: seq<int>)

  /** The message the page shows after an action. */
  datatype Notice = Warning(text: string) | Success(text: string) | Failure(text: string)

  /** The page after a successful change to the store: the list fetched again under the same query. */
  function Refetched(p: Page, store: seq<Code>): (r: Page)
    ensures r.store == store && r.query == p.query && r.selected == p.selected
    ensures SortedDesc((c: Code) => c.createdAt, r.shown)
    ensures p.query == "" ==> multiset(r.shown) == multiset(store)
  {
    p.(store := store, shown := Listing(store, p.query))
  }

  /** Generate: a new available code is added and the list refetched; without a user the error is shown. */
  function GenerateAction(p: Page, user: Option<string>, text: string, id: int, now: int): (r: (Page, Notice))
    ensures user.None? ==> r == (p, Failure("生成邀请码失败: " + MSG_NOT_SIGNED_IN))
    ensures user.Some? ==>
      r.1 == Success(MSG_GENERATED)
      && r.0.store == p.store + [Code(id, now, text, AVAILABLE, user.value, None, None)]
      && r.0.selected == p.selected
  {
    match Generate(p.store, user, text, id, now)
    case Err(msg) => (p, Failure("生成邀请码失败: " + msg))
    case Ok(store) => (Refetched(p, store), Success(MSG_GENERATED))
  }

  /** Deleting one row: on success the row is gone and the list refetched; the selection is kept. */
  function DeleteOne(p: Page, id: int, failure: Option<string>): (r: (Page, Notice))
    ensures failure.Some? ==> r == (p, Failure("删除邀请码失败: " + failure.value))
    ensures failure.None? ==>
      r.1 == Success(MSG_DELETED) && r.0.selected == p.selected
      && r.0.store == Delete(p.store, [id])
  {
    if failure.Some? then (p, Failure("删除邀请码失败: " + failure.value))
    else (Refetched(p, Delete(p.store, [id])), Success(MSG_DELETED))
  }

  /**
   * Batch delete: with nothing selected only a warning; a failed call shows
   * its message and changes nothing; otherwise the selected rows are
   * deleted, the count of selected ids reported, and the selection cleared.
   */
  function BatchDelete(p: Page, failure: Option<string>): (r: (Page, Notice))
    ensures p.selected == [] ==> r == (p, Warning(MSG_SELECT_TO_DELETE))
    ensures p.selected != [] && failure.Some? ==> r == (p, Failure("批量删除邀请码失败: " + failure.value))
    ensures p.selected != [] && failure.None? ==>
      r.1 == Success("成功删除 " + NatToString(|p.selected|) + " 个邀请码")
      && r.0.selected == [] && r.0.store == Delete(p.store, p.selected)
  {
    if p.selected == [] then (p, Warning(MSG_SELECT_TO_DELETE))
    else if failure.Some? then (p, Failure("批量删除邀请码失败: " + failure.value))
    else (Refetched(p, Delete(p.store, p.selected)).(selected := []), Success("成功删除 " + NatToString(|p.selected|) + " 个邀请码"))
  }

  /** A successful batch delete leaves no selected row in the store and every unselected row in place. */
  lemma BatchDeleteRemovesExactlySelected(p: Page)
    requires p.selected != []
    ensures var after := BatchDelete(p, None).0.store;
      (forall c :: c in after ==> c.id !in p.selected)
      && (forall c :: c in p.store && c.id !in p.selected ==> c in after)
  {
    forall c | c in p.store && c.id !in p.selected
      ensures c in BatchDelete(p, None).0.store
    {
      var i :| 0 <= i < |p.store| && p.store[i] == c;
    }
  }

  /**
   * Batch send: as batch delete, with the selected available rows marked
   * sent instead of deleted.
   */
  function BatchSendAction(p: Page, failure: Option<string>): (r: (Page, Notice))
    ensures p.selected == [] ==> r == (p, Warning(MSG_SELECT_TO_SEND))
    ensures p.selected != [] && failure.Some? ==> r == (p, Failure("批量发送邀请码失败: " + failure.value))
    ensures p.selected != [] && failure.None? ==>
      r.1 == Success("成功发送 " + NatToString(|p.selected|) + " 个邀请码")
      && r.0.selected == [] && r.0.store == BatchSend(p.store, p.selected)
  {
    if p.selected == [] then (p, Warning(MSG_SELECT_TO_SEND))
    else if failure.Some? then (p, Failure("批量发送邀请码失败: " + failure.value))
    else (Refetched(p, BatchSend(p.store, p.selected)).(selected := []), Success("成功发送 " + NatToString(|p.selected|) + " 个邀请码"))
  }

  /**
   * After a successful batch send no row with a selected id can be selected
   * again, and every row with an unselected id is exactly as before.
   */
  lemma SentRowsLeaveTheSelection(p: Page)
    requires p.selected != []
    ensures var after := BatchSendAction(p, None).0.store;
      |after| == |p.store|
      && (forall i :: 0 <= i < |after| && after[i].id in p.selected ==> !Selectable(after[i]))
      && (forall i :: 0 <= i < |after| && after[i].id !in p.selected ==> after[i] == p.store[i])
  {
  }

  /** The codes of the shown rows whose id is selected, in table order. */
  function SelectedCodes(shown: seq<Code>, selected: seq<int>): (r: seq<string>)
    ensures |r| <= |shown|
    ensures forall t :: t in r ==> exists c :: c in shown && c.id in selected && c.code == t
    ensures forall c :: c in shown && c.id in selected ==> c.code in r
  {
    var rows := Filter((c: Code) => c.id in selected, shown);
    var r := Map((c: Code) => c.code, rows);
    assert forall k :: 0 <= k < |r| ==> r[k] == rows[k].code && rows[k] in rows;
    assert forall c :: c in rows ==> c.code in r by {
      forall c | c in rows ensures c.code in r {
        var k :| 0 <= k < |rows| && rows[k] == c;
        assert r[k] == c.code;
      }
    }
    r
  }

  /**
   * The copied codes follow the table: a row added at the bottom adds its
   * code at the end exactly when it is selected, and no rows give no codes.
   */
  lemma SelectedCodesInTableOrder(shown: seq<Code>, c: Code, selected: seq<int>)
    ensures SelectedCodes([], selected) == []
    ensures SelectedCodes(shown + [c], selected) == SelectedCodes(shown, selected) + (if c.id in selected then [c.code] else [])
  {
    var sel := (c: Code) => c.id in selected;
    var code := (c: Code) => c.code;
    FilterAppend(sel, shown, [c]);
    MapAppend(code, Filter(sel, shown), Filter(sel, [c]));
  }

  /**
   * Batch copy: with nothing selected only a warning; otherwise the selected
   * codes joined by line breaks go to the clipboard, and the notice depends
   * on whether the clipboard accepted them. Its first component is the text
   * offered to the clipboard.
   */
  function BatchCopy(p: Page, clipboardOk: bool): (r: (Option<string>, Notice))
    ensures p.selected == [] <==> r.0.None?
    ensures p.selected == [] ==> r.1 == Warning(MSG_SELECT_TO_COPY)
    ensures p.selected != [] ==> r.0.value == Join(SelectedCodes(p.shown, p.selected), "\n")
    ensures p.selected != [] && clipboardOk ==> r.1 == Success("已复制 " + NatToString(|p.selected|) + " 个邀请码到剪贴板")
    ensures p.selected != [] && !clipboardOk ==> r.1 == Failure("批量复制失败，请手动复制")
  {
    if p.selected == [] then (None, Warning(MSG_SELECT_TO_COPY))
    else
      var text := Join(SelectedCodes(p.shown, p.selected), "\n");
      (Some(text), if clipboardOk then Success("已复制 " + NatToString(|p.selected|) + " 个邀请码到剪贴板") else Failure("批量复制失败，请手动复制"))
  }

  /** Codes without line breaks survive the copy: splitting the clipboard text on line breaks gives them back. */
  lemma CopiedCodesSplitBack(p: Page)
    requires p.selected != [] && SelectedCodes(p.shown, p.selected) != []
    requires forall c :: c in p.shown ==> NoneOf(c.code, {'\n'})
    ensures Split(BatchCopy(p, true).0.value, {'\n'}) == SelectedCodes(p.shown, p.selected)
  {
    var codes := SelectedCodes(p.shown, p.selected);
    forall k | 0 <= k < |codes| ensures NoneOf(codes[k], {'\n'}) {
      assert codes[k] in codes;
    }
    SplitJoin(codes, '\n', {'\n'});
  }
}
