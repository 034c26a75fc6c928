/**
 * The published-notes table: the status tag of a note, the rows built
 * from the note list, the "/" placeholder cells and the pagination totals.
 */
module NoteTable {
  import opened Base
  import opened Strings
  import opened JsonValues
  import Drafts

  datatype Tag = Tag(color: string, text: string)

  /** The property key a value becomes when it indexes an object; arrays and objects are not modelled. */
  function StatusKey(j: Json): Option<string>
  {
    match j
    case JNum(n) => Some(IntToString(n))
    case JStr(s) => Some(s)
    case JBool(b) => Some(if b then "true" else "false")
    case _ => None
  }

  /**
   * `renderStatus`: a missing or null status is 未知; keys 0, 1, 2 and -1
   * are 草稿, 成功, 等待 and 失败; any other key falls back to 未知.
   */
  function RenderStatus(status: Option<Json>): (r: Tag)
    ensures status.None? || status == Some(JNull) ==> r == Tag("default", "未知")
    ensures r.text == "未知" <==> r.color == "default"
  {
    if status.None? || status.value == JNull then Tag("default", "未知")
    else
      match StatusKey(status.value)
      case Some("0") => Tag("blue", "草稿")
      case Some("1") => Tag("green", "成功")
      case Some("2") => Tag("orange", "等待")
      case Some("-1") => Tag("red", "失败")
      case _ => Tag("default", "未知")
  }

  /**
   * Over numeric statuses the tag is known for exactly 0, 1, 2 and -1: a
   * draft saved with status 0 shows 草稿 and a submitted note (status 2)
   * shows 等待.
   */
  lemma NumericStatusLabels(n: int)
    ensures RenderStatus(Some(JNum(n))).text == "未知" <==> n !in {0, 1, 2, -1}
    ensures RenderStatus(Some(JNum(Drafts.DRAFT_STATUS))).text == "草稿"
    ensures RenderStatus(Some(JNum(Drafts.PUBLISH_STATUS))).text == "等待"
    ensures RenderStatus(Some(JNum(1))).text == "成功" && RenderStatus(Some(JNum(-1))).text == "失败"
  {
    assert IntToString(0) == "0" && IntToString(1) == "1" && IntToString(2) == "2";
    assert IntToString(-1) == "-1";
    if IntToString(n) == "0" { IntToStringInjective(n, 0); }
    if IntToString(n) == "1" { IntToStringInjective(n, 1); }
    if IntToString(n) == "2" { IntToStringInjective(n, 2); }
    if IntToString(n) == "-1" { IntToStringInjective(n, -1); }
  }

  /** A note as the list endpoint returns it. */
  datatype NoteRecord = NoteRecord(id: Json, title: Json, content: Json, author: Json, deviceId: Json, status: Option<Json>, createdAt: Json)

  datatype NoteRow = NoteRow(key: Json, noteTitle: Json, noteContent: Json, publishAccount: Json, publishHost: Json, status: Option<Json>, publishTime: Json, original: NoteRecord)

  /** `v || "-"`. */
  function OrDash(j: Json): (r: Json)
    ensures Truthy(r)
    ensures Truthy(j) ==> r == j
    ensures !Truthy(j) ==> r == JStr("-")
  {
    if Truthy(j) then j else JStr("-")
  }

  /**
   * `formatNoteDataForTable`: one row per note, in order; the key is the id
   * or else the position, the text cells fall back to "-", the status
   * passes through unchanged.
   */
  function FormatRows(notes: seq<NoteRecord>): (r: seq<NoteRow>)
    ensures |r| == |notes|
    ensures forall i :: 0 <= i < |notes| ==> r[i].original == notes[i] && r[i].status == notes[i].status
    ensures forall i :: 0 <= i < |notes| ==> r[i].key == (if Truthy(notes[i].id) then notes[i].id else JNum(i))
    ensures forall i :: 0 <= i < |notes| ==> Truthy(r[i].noteTitle) && Truthy(r[i].noteContent) && Truthy(r[i].publishAccount) && Truthy(r[i].publishHost) && Truthy(r[i].publishTime)
  {
    seq(|notes|, i requires 0 <= i < |notes| =>
      var n := notes[i];
      NoteRow(if Truthy(n.id) then n.id else JNum(i), OrDash(n.title), OrDash(n.content), OrDash(n.author),
        OrDash(n.deviceId), n.status, OrDash(n.createdAt), n))
  }

  /** Every row can be traced back: a truthy cell is the note's own value. */
  lemma RowsKeepValues(notes: seq<NoteRecord>, i: int)
    requires 0 <= i < |notes|
    ensures var row := FormatRows(notes)[i];
      (Truthy(notes[i].title) ==> row.noteTitle == notes[i].title)
      && (Truthy(notes[i].content) ==> row.noteContent == notes[i].content)
      && (!Truthy(notes[i].author) ==> row.publishAccount == JStr("-"))
  {
  }

  /** The content, account and host cells show "-" for the placeholder "/". */
  function Cell(text: string): (r: string)
    ensures r != "/"
    ensures text != "/" ==> r == text
  {
    if text == "/" then "-" else text
  }

  datatype Pagination = Pagination(current: int, pageSize: int, total: int)

  /** After a fetch: the requested page and size, and the server's total when it is not 0, else the number of notes returned. */
  function AfterFetch(page: int, pageSize: int, serverTotal: Option<int>, returned: nat): (r: Pagination)
    ensures r.current == page && r.pageSize == pageSize
    ensures serverTotal.Some? && serverTotal.value != 0 ==> r.total == serverTotal.value
    ensures serverTotal.None? || serverTotal.value == 0 ==> r.total == returned
  {
    Pagination(page, pageSize, if serverTotal.Some? && serverTotal.value != 0 then serverTotal.value else returned)
  }
}
