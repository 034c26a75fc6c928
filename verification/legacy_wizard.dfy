/**
 * The older copy of the note wizard on the content-creation page. It shares
 * the upload check (with the JPEG/PNG/GIF list), the image paths, the
 * list parsers and the update merge with the newer wizard; what differs
 * is the last-step validation, which names the first missing field, the
 * status tag of its task table and its number cells.
 */
module LegacyWizard {
  import opened Base
  import opened NoteContent
  import NoteWizard

  const MSG_VISIBILITY := "请选择可见范围"

  /**
   * `handleNextStepOrSubmit`: the first step checks account, title, content;
   * the last step checks title, content, visibility, account, each with
   * its own message, before submitting.
   */
  function NextOrSubmit(step: int, data: NoteFormData): (r: NoteWizard.StepOutcome)
    ensures r.Advance? <==> step < 1 && NoteWizard.FirstStepError(data).None?
    ensures r.Advance? ==> r.step == step + 1
    ensures r.Submit? <==> step >= 1 && data.title != [] && data.content != [] && data.visibility != [] && data.account != []
    ensures step >= 1 && data.title == [] ==> r == NoteWizard.Reject(NoteWizard.MSG_TITLE)
    ensures step >= 1 && data.title != [] && data.content == [] ==> r == NoteWizard.Reject(NoteWizard.MSG_CONTENT)
    ensures step >= 1 && data.title != [] && data.content != [] && data.visibility == [] ==> r == NoteWizard.Reject(MSG_VISIBILITY)
    ensures step >= 1 && data.title != [] && data.content != [] && data.visibility != [] && data.account == [] ==> r == NoteWizard.Reject(NoteWizard.MSG_ACCOUNT)
  {
    if step < 1 then NoteWizard.NextOrSubmit(step, data)
    else if data.title == [] then NoteWizard.Reject(NoteWizard.MSG_TITLE)
    else if data.content == [] then NoteWizard.Reject(NoteWizard.MSG_CONTENT)
    else if data.visibility == [] then NoteWizard.Reject(MSG_VISIBILITY)
    else if data.account == [] then NoteWizard.Reject(NoteWizard.MSG_ACCOUNT)
    else NoteWizard.Submit
  }

  /** Both wizards let exactly the same notes through; only the rejection message differs. */
  lemma SameGateAsNewerWizard(step: int, data: NoteFormData)
    ensures NextOrSubmit(step, data).Reject? <==> NoteWizard.NextOrSubmit(step, data).Reject?
    ensures !NextOrSubmit(step, data).Reject? ==> NextOrSubmit(step, data) == NoteWizard.NextOrSubmit(step, data)
  {
  }

  datatype Tag = Tag(color: string, text: string)

  /** `renderStatus` of the task table: 成功, 失败 and 等待 get their colours, any other status the default colour. */
  function StatusTag(status: string): (r: Tag)
    ensures r.text == status
    ensures r.color == "default" <==> status !in {"成功", "失败", "等待"}
    ensures status == "成功" ==> r.color == "green"
    ensures status == "失败" ==> r.color == "red"
    ensures status == "等待" ==> r.color == "orange"
  {
    if status == "成功" then Tag("green", "成功")
    else if status == "失败" then Tag("red", "失败")
    else if status == "等待" then Tag("orange", "等待")
    else Tag("default", status)
  }

  /**
   * `formatNumber`: 0 shows "-", ten thousand and more a one-decimal count
   * of 万 (`tenThousands` formats the quotient), the rest the locale's digits.
   */
  function FormatNumber(num: real, tenThousands: real -> string, locale: real -> string): (r: string)
    ensures num == 0.0 ==> r == "-"
    ensures num >= 10000.0 ==> |r| >= 1 && r[|r| - 1] == '万'
  {
    if num == 0.0 then "-"
    else if num >= 10000.0 then tenThousands(num / 10000.0) + "万"
    else locale(num)
  }
}
