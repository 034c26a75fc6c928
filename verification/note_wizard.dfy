/**
 * The two-step note wizard: merging form updates into the note, the
 * validation that guards "next", "submit" and "save draft", uploading
 * the listed images under sanitised names, and the parameters sent to
 * the note endpoint, including the run id of the publish job.
 */
module NoteWizard {
  import opened Base
  import opened Strings
  import opened Seqs
  import opened JsonValues
  import opened Uploads
  import opened NoteContent
  import NoteText

  /** `sanitizeFileName`: both commas become '_', so a name can sit in a comma-separated list. */
  function SanitizeFileName(name: string): (r: string)
    ensures |r| == |name|
    ensures NoneOf(r, NoteText.SEPARATORS)
    ensures forall i :: 0 <= i < |name| && name[i] !in NoteText.SEPARATORS ==> r[i] == name[i]
    ensures forall i :: 0 <= i < |name| && name[i] in NoteText.SEPARATORS ==> r[i] == '_'
  {
    ReplaceChars(name, NoteText.SEPARATORS, '_')
  }

  /** Sanitising a sanitised name changes nothing, and a name without commas is already sanitised. */
  lemma SanitizeIdempotent(name: string)
    ensures SanitizeFileName(SanitizeFileName(name)) == SanitizeFileName(name)
    ensures NoneOf(name, NoteText.SEPARATORS) ==> SanitizeFileName(name) == name
  {
  }

  /** The email as it appears in a run id: '@' becomes "_at_", then '.' becomes "_dot_". */
  function EscapeEmail(email: string): (r: string)
    ensures NoneOf(r, {'@', '.'})
  {
    ReplaceAll(ReplaceAll(email, '@', "_at_"), '.', "_dot_")
  }

  /** Escaping works piece by piece, and leaves an email without '@' and '.' as it is. */
  lemma EscapeEmailParts(a: string, b: string)
    ensures EscapeEmail(a + b) == EscapeEmail(a) + EscapeEmail(b)
    ensures NoneOf(a, {'@', '.'}) ==> EscapeEmail(a) == a
  {
    ReplaceAllAppend(a, b, '@', "_at_");
    ReplaceAllAppend(ReplaceAll(a, '@', "_at_"), ReplaceAll(b, '@', "_at_"), '.', "_dot_");
    if NoneOf(a, {'@', '.'}) {
      ReplaceAllAbsent(a, '@', "_at_");
      ReplaceAllAbsent(a, '.', "_dot_");
    }
  }

  /** What one character of the email becomes in the run id. */
  function EscapeChar(c: char): string
  {
    if c == '@' then "_at_" else if c == '.' then "_dot_" else [c]
  }

  /**
   * Escaping, character by character: '@' becomes "_at_", '.' becomes
   * "_dot_", every other character stays, and the pieces keep their order.
   */
  lemma EscapeEmailByChar(c: char, rest: string)
    ensures EscapeEmail([]) == []
    ensures EscapeEmail([c] + rest) == EscapeChar(c) + EscapeEmail(rest)
  {
    EscapeEmailParts([c], rest);
    var at := ReplaceAll([c], '@', "_at_");
    assert ReplaceAll([c][1..], '@', "_at_") == [];
    assert at == (if c == '@' then "_at_" else [c]);
    if c == '@' {
      assert ReplaceAll(at, '.', "_dot_") == "_at_" by {
        ReplaceAllAbsent("_at_", '.', "_dot_");
      }
    } else {
      assert ReplaceAll([c][1..], '.', "_dot_") == [];
      assert ReplaceAll(at, '.', "_dot_") == (if c == '.' then "_dot_" else [c]);
    }
  }

  /** An ISO time stamp with '-', ':' and '.' replaced by '_'. */
  function TimeStamp(iso: string): (r: string)
    ensures |r| == |iso| && NoneOf(r, {'-', ':', '.'})
    ensures forall i :: 0 <= i < |iso| ==> r[i] == (if iso[i] in {'-', ':', '.'} then '_' else iso[i])
  {
    ReplaceChars(iso, {'-', ':', '.'}, '_')
  }

  /** The id of the publish job: a fixed prefix, the escaped email, '_' and the time stamp. */
  function RunId(email: string, iso: string): (r: string)
    ensures StartsWith(r, "notes_publish_")
    ensures |r| == |"notes_publish_"| + |EscapeEmail(email)| + 1 + |iso|
    ensures var n := |"notes_publish_"| + |EscapeEmail(email)|;
      r[|"notes_publish_"|..n] == EscapeEmail(email) && r[n] == '_' && r[n + 1..] == TimeStamp(iso)
  {
    var e := EscapeEmail(email);
    var r := "notes_publish_" + e + "_" + TimeStamp(iso);
    assert r[..|"notes_publish_"|] == "notes_publish_";
    assert r[|"notes_publish_"|..|"notes_publish_"| + |e|] == e;
    assert r[|"notes_publish_"| + |e| + 1..] == TimeStamp(iso);
    r
  }

  /** A time stamp from `toISOString` holds no '@', so the run id holds neither '@' nor '.'. */
  lemma RunIdHasNoAtOrDot(email: string, iso: string)
    requires NoneOf(iso, {'@'})
    ensures NoneOf(RunId(email, iso), {'@', '.'})
  {
    var e := EscapeEmail(email);
    var t := TimeStamp(iso);
    assert NoneOf("notes_publish_", {'@', '.'});
    NoneOfAppend("notes_publish_", e, {'@', '.'});
    NoneOfAppend("notes_publish_" + e, "_", {'@', '.'});
    NoneOfAppend("notes_publish_" + e + "_", t, {'@', '.'});
  }

  /** `handleDataChange`: `{...prev, ...data}`, each supplied field replaces the old one. */
  function Merge(prev: NoteFormData, c: NoteChange): (r: NoteFormData)
    ensures c.title.Some? ==> r.title == c.title.value
    ensures c.title.None? ==> r.title == prev.title
    ensures c.content.Some? ==> r.content == c.content.value
    ensures c.content.None? ==> r.content == prev.content
    ensures c.tags.Some? ==> r.tags == c.tags.value
    ensures c.tags.None? ==> r.tags == prev.tags
    ensures c.atUsers.Some? ==> r.atUsers == c.atUsers.value
    ensures c.atUsers.None? ==> r.atUsers == prev.atUsers
    ensures c.images.Some? ==> r.images == c.images.value
    ensures c.images.None? ==> r.images == prev.images
    ensures c.visibility.Some? ==> r.visibility == c.visibility.value
    ensures c.visibility.None? ==> r.visibility == prev.visibility
    ensures c.account.Some? ==> r.account == c.account.value
    ensures c.account.None? ==> r.account == prev.account
    ensures c.deviceId.Some? ==> r.deviceId == c.deviceId.value
    ensures c.deviceId.None? ==> r.deviceId == prev.deviceId
  {
    NoteFormData(
      c.title.GetOr(prev.title), c.content.GetOr(prev.content), c.tags.GetOr(prev.tags),
      c.atUsers.GetOr(prev.atUsers), c.images.GetOr(prev.images), c.visibility.GetOr(prev.visibility),
      c.account.GetOr(prev.account), c.deviceId.GetOr(prev.deviceId))
  }

  function Later<T>(a: Option<T>, b: Option<T>): Option<T>
  {
    if b.Some? then b else a
  }

  /** Two updates in a row, as one update in which the later one wins. */
  function Combine(a: NoteChange, b: NoteChange): NoteChange
  {
    NoteChange(Later(a.title, b.title), Later(a.content, b.content), Later(a.tags, b.tags),
      Later(a.atUsers, b.atUsers), Later(a.images, b.images), Later(a.visibility, b.visibility),
      Later(a.account, b.account), Later(a.deviceId, b.deviceId))
  }

  /** An empty update changes nothing, repeating an update changes nothing more, and updates compose. */
  lemma MergeLaws(p: NoteFormData, a: NoteChange, b: NoteChange)
    ensures Merge(p, NO_CHANGE) == p
    ensures Merge(Merge(p, a), a) == Merge(p, a)
    ensures Merge(Merge(p, a), b) == Merge(p, Combine(a, b))
  {
  }

  const MSG_ACCOUNT := "请选择发布账号"
  const MSG_TITLE := "请填写笔记标题"
  const MSG_CONTENT := "请填写笔记内容"
  const MSG_INCOMPLETE := "请完善所有必填信息"

  /** The first-step check (also run before saving a draft): account, then title, then content. */
  function FirstStepError(data: NoteFormData): (r: Option<string>)
    ensures r.None? <==> data.account != [] && data.title != [] && data.content != []
    ensures data.account == [] ==> r == Some(MSG_ACCOUNT)
    ensures data.account != [] && data.title == [] ==> r == Some(MSG_TITLE)
    ensures data.account != [] && data.title != [] && data.content == [] ==> r == Some(MSG_CONTENT)
  {
    if data.account == [] then Some(MSG_ACCOUNT)
    else if data.title == [] then Some(MSG_TITLE)
    else if data.content == [] then Some(MSG_CONTENT)
    else None
  }

  datatype StepOutcome = Advance(step: int) | Submit | Reject(msg: string)

  /**
   * `handleNextStepOrSubmit`: before the last step it advances once the
   * first-step check passes; on the last step it submits once title,
   * content, visibility and account are all set.
   */
  function NextOrSubmit(step: int, data: NoteFormData): (r: StepOutcome)
    ensures r.Advance? <==> step < 1 && FirstStepError(data).None?
    ensures r.Advance? ==> r.step == step + 1
    ensures r.Submit? <==> step >= 1 && data.title != [] && data.content != [] && data.visibility != [] && data.account != []
    ensures step < 1 && r.Reject? ==> Some(r.msg) == FirstStepError(data)
  {
    if step < 1 then
      match FirstStepError(data)
      case Some(m) => Reject(m)
      case None => Advance(step + 1)
    else if data.title == [] || data.content == [] || data.visibility == [] || data.account == [] then Reject(MSG_INCOMPLETE)
    else Submit
  }

  /** `handlePreviousStep`. */
  function PreviousStep(step: int): int
  {
    step - 1
  }

  /** "Previous" undoes a successful "next". */
  lemma PreviousUndoesNext(step: int, data: NoteFormData)
    requires NextOrSubmit(step, data).Advance?
    ensures PreviousStep(NextOrSubmit(step, data).step) == step
  {
  }

  /**
   * One image of `uploadImagesToCOS`: a file without its picked object fails;
   * otherwise it is stored (the storage outcome is `stored`) under its
   * sanitised name, which is what the list records.
   */
  function UploadOne(f: UploadFile, stored: UploadFile -> bool): Result<string>
  {
    if !f.hasOriginal then Err("文件 " + f.name + " 缺少原始文件对象")
    else if !stored(f) then Err("上传失败")
    else Ok(SanitizeFileName(f.name))
  }

  /** All uploads of a list; the first failure fails the whole list. */
  function UploadEach(files: seq<UploadFile>, stored: UploadFile -> bool): (r: Result<seq<string>>)
    ensures r.Ok? ==> |r.value| == |files|
    ensures r.Ok? ==> forall i :: 0 <= i < |files| ==> files[i].hasOriginal && stored(files[i]) && r.value[i] == SanitizeFileName(files[i].name)
    ensures r.Err? <==> exists i :: 0 <= i < |files| && UploadOne(files[i], stored).Err?
    decreases |files|
  {
    if files == [] then Ok([])
    else
      match UploadOne(files[0], stored)
      case Err(m) => Err(m)
      case Ok(name) =>
        var rest := UploadEach(files[1..], stored);
        if rest.Err? then
          assert forall i :: 0 <= i < |files| - 1 ==> files[1..][i] == files[i + 1];
          Err(rest.msg)
        else
          assert forall i :: 0 < i < |files| ==> files[i] == files[1..][i - 1];
          Ok([name] + rest.value)
  }

  /** `uploadImagesToCOS`: nothing is uploaded without files, an account or an email. */
  function UploadImages(files: seq<UploadFile>, account: string, email: string, stored: UploadFile -> bool): (r: Result<seq<string>>)
    ensures files == [] || account == [] || email == [] ==> r == Ok([])
    ensures files != [] && account != [] && email != [] ==> r == UploadEach(files, stored)
  {
    if files == [] || account == [] || email == [] then Ok([]) else UploadEach(files, stored)
  }

  /** The uploaded names, joined by ',', split back into exactly the uploaded names. */
  lemma UploadedListParses(files: seq<UploadFile>, account: string, email: string, stored: UploadFile -> bool)
    requires UploadImages(files, account, email, stored).Ok?
    ensures var names := UploadImages(files, account, email, stored).value;
      files != [] && account != [] && email != [] ==> Split(Join(names, ","), {','}) == names
  {
    var names := UploadImages(files, account, email, stored).value;
    if files != [] && account != [] && email != [] {
      forall k | 0 <= k < |names| ensures NoneOf(names[k], {','}) {
        assert names[k] == SanitizeFileName(files[k].name);
      }
      SplitJoin(names, ',', {','});
    }
  }

  /** The parameters of `addNoteApi`. */
  datatype NoteParams = NoteParams(
    email: string, title: string, content: string, author: string, deviceId: string,
    imgList: string, status: int, visibility: string, atUsers: JsonText, noteTags: JsonText)

  /**
   * `submitNote`'s parameters: status 0 for a draft (the wizard's own flag
   * or a forced draft) and 2 otherwise; no tags give an empty field,
   * and an empty @-user field is sent as "[]".
   */
  function SubmitParams(data: NoteFormData, email: string, isDraft: bool, forceDraft: bool): (r: NoteParams)
    ensures r.status == 0 <==> isDraft || forceDraft
    ensures r.status == 0 || r.status == 2
    ensures r.noteTags == Blank <==> data.tags == []
    ensures r.noteTags != Blank ==> HoldsStrings(r.noteTags, data.tags)
    ensures r.atUsers != Blank
    ensures NoteText.SafeParseAtUsers(r.atUsers) == NoteText.SafeParseAtUsers(data.atUsers)
    ensures r.title == data.title && r.content == data.content && r.author == data.account
    ensures r.imgList == data.images && r.deviceId == data.deviceId && r.email == email
    ensures r.visibility == data.visibility
  {
    NoteParams(email, data.title, data.content, data.account, data.deviceId, data.images,
      if isDraft || forceDraft then 0 else 2, data.visibility,
      if data.atUsers == Blank then Parsed(JArr([])) else data.atUsers,
      if |data.tags| > 0 then Parsed(StringArray(data.tags)) else Blank)
  }

  const MSG_UPLOAD_FAILED := "图片上传失败，请重试"

  /**
   * The image field sent with a save or a submit: with files listed they
   * are uploaded and their names joined by ','; otherwise the note's own
   * field is kept.
   */
  function FinalImages(data: NoteFormData, files: seq<UploadFile>, email: string, stored: UploadFile -> bool): (r: Result<string>)
    ensures files == [] ==> r == Ok(data.images)
    ensures files != [] ==> (r.Ok? <==> UploadImages(files, data.account, email, stored).Ok?)
    ensures files != [] && (forall i :: 0 <= i < |files| ==> files[i].hasOriginal && stored(files[i])) ==> r.Ok?
    ensures r.Err? ==> r == Err(MSG_UPLOAD_FAILED)
    ensures files != [] && data.account != [] && email != [] && r.Ok? ==>
      UploadImages(files, data.account, email, stored).Ok? && Split(r.value, {','}) == UploadImages(files, data.account, email, stored).value
  {
    if files == [] then Ok(data.images)
    else
      var uploaded := UploadImages(files, data.account, email, stored);
      if uploaded.Err? then Err(MSG_UPLOAD_FAILED)
      else
        UploadedListParses(files, data.account, email, stored);
        Ok(Join(uploaded.value, ","))
  }

  /**
   * `handleSaveDraft`: the first-step check runs before any upload, a failed
   * upload stops the save, and the note goes out with status 0.
   */
  function SaveDraft(data: NoteFormData, files: seq<UploadFile>, email: string, isDraft: bool, stored: UploadFile -> bool): (r: Result<NoteParams>)
    ensures FirstStepError(data).Some? ==> r == Err(FirstStepError(data).value)
    ensures r.Ok? ==> r.value.status == 0 && FirstStepError(data).None?
    ensures r.Ok? ==> r.value.title == data.title && r.value.author == data.account
    ensures r.Ok? ==> r.value.content == data.content && r.value.deviceId == data.deviceId && r.value.email == email
    ensures r.Ok? && files == [] ==> r.value.imgList == data.images
    ensures r.Ok? && files != [] ==> FinalImages(data, files, email, stored) == Ok(r.value.imgList)
    ensures FirstStepError(data).None? && FinalImages(data, files, email, stored).Err? ==> r == Err(MSG_UPLOAD_FAILED)
    ensures FirstStepError(data).None? && (files == [] || forall i :: 0 <= i < |files| ==> files[i].hasOriginal && stored(files[i])) ==> r.Ok?
  {
    match FirstStepError(data)
    case Some(m) => Err(m)
    case None =>
      match FinalImages(data, files, email, stored)
      case Err(m) => Err(m)
      case Ok(images) => Ok(SubmitParams(data.(images := images), email, isDraft, true))
  }

  /**
   * The submit branch of `handleNextStepOrSubmit`: all four fields are
   * required, a failed upload stops the submit, and the status follows the
   * wizard's draft flag.
   */
  function SubmitFromLastStep(data: NoteFormData, files: seq<UploadFile>, email: string, isDraft: bool, stored: UploadFile -> bool): (r: Result<NoteParams>)
    ensures NextOrSubmit(1, data).Reject? ==> r == Err(MSG_INCOMPLETE)
    ensures r.Ok? ==> NextOrSubmit(1, data).Submit?
    ensures r.Ok? ==> r.value.status == (if isDraft then 0 else 2)
    ensures r.Ok? ==> r.value.title == data.title && r.value.content == data.content && r.value.author == data.account
    ensures r.Ok? && files == [] ==> r.value.imgList == data.images
    ensures r.Ok? && files != [] ==> FinalImages(data, files, email, stored) == Ok(r.value.imgList)
    ensures NextOrSubmit(1, data).Submit? && FinalImages(data, files, email, stored).Err? ==> r == Err(MSG_UPLOAD_FAILED)
    ensures NextOrSubmit(1, data).Submit? && (files == [] || forall i :: 0 <= i < |files| ==> files[i].hasOriginal && stored(files[i])) ==> r.Ok?
  {
    if NextOrSubmit(1, data).Reject? then Err(MSG_INCOMPLETE)
    else
      match FinalImages(data, files, email, stored)
      case Err(m) => Err(m)
      case Ok(images) => Ok(SubmitParams(data.(images := images), email, isDraft, false))
  }

  /** Stamping a stamp changes nothing: it holds no separator left to replace. */
  lemma TimeStampIdempotent(iso: string)
    ensures TimeStamp(TimeStamp(iso)) == TimeStamp(iso)
  {
  }

  /**
   * Saving a draft and submitting the same complete note send the same
   * parameters but for the status.
   */
  lemma SaveAndSubmitDifferOnlyInStatus(data: NoteFormData, files: seq<UploadFile>, email: string, isDraft: bool, stored: UploadFile -> bool)
    requires SaveDraft(data, files, email, isDraft, stored).Ok? && SubmitFromLastStep(data, files, email, isDraft, stored).Ok?
    ensures SaveDraft(data, files, email, isDraft, stored).value
      == SubmitFromLastStep(data, files, email, isDraft, stored).value.(status := 0)
  {
  }
}
