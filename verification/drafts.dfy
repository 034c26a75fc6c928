/**
 * The drafts page: which notes are drafts, reading a draft's stored image
 * list back into upload entries, turning those entries into storage paths
 * again on save, and the update a save or a submit sends.
 */
module Drafts {
  import opened Base
  import opened Strings
  import opened Seqs
  import opened JsonValues
  import NoteText
  import opened Uploads

  /** A stored note as the list endpoint returns it; `status` is whatever JSON the row holds. */
  datatype Note = Note(id: string, status: Json, imgList: string)

  /** Only rows whose status is exactly the number 0 are drafts. */
  function DraftList(notes: seq<Note>): (r: seq<Note>)
    ensures IsSubseq(r, notes)
    ensures forall n :: n in r ==> n.status == JNum(0)
    ensures forall i :: 0 <= i < |notes| && notes[i].status == JNum(0) ==> notes[i] in r
    ensures forall n :: multiset(r)[n] == if n.status == JNum(0) then multiset(notes)[n] else 0
  {
    var keep := (n: Note) => n.status == JNum(0);
    FilterMultiset(keep, notes);
    Filter(keep, notes)
  }

  predicate NonBlank(s: string) { Trim(s) != [] }

  /** `url && url.trim()` throws on a truthy value that is not a string. */
  predicate TrimThrows(j: Json) { Truthy(j) && !j.JStr? }

  /** An item `url && url.trim()` lets through without throwing: a string that is not blank. */
  predicate IsNonBlankString(j: Json) { j.JStr? && NonBlank(j.s) }

  /** The text of a string item. */
  function TextOf(j: Json): string { if j.JStr? then j.s else "" }

  /**
   * The strings of `items` that are not blank, in order: the items the
   * array filter keeps, read as their text.
   */
  function NonBlankStrings(items: seq<Json>): (r: seq<string>)
    ensures forall k :: 0 <= k < |r| ==> NonBlank(r[k])
    ensures |r| <= |items|
    ensures r == Map(TextOf, Filter(IsNonBlankString, items))
    decreases |items|
  {
    if items == [] then []
    else
      var rest := NonBlankStrings(items[1..]);
      NonBlankStringsStep(items);
      if IsNonBlankString(items[0]) then [items[0].s] + rest else rest
  }

  lemma NonBlankStringsStep(items: seq<Json>)
    requires items != []
    ensures Map(TextOf, Filter(IsNonBlankString, items))
      == (if IsNonBlankString(items[0]) then [items[0].s] else []) + Map(TextOf, Filter(IsNonBlankString, items[1..]))
  {
    var kept := Filter(IsNonBlankString, items[1..]);
    if IsNonBlankString(items[0]) {
      assert Filter(IsNonBlankString, items) == [items[0]] + kept;
      MapAppend(TextOf, [items[0]], kept);
    } else {
      assert Filter(IsNonBlankString, items) == kept;
    }
  }

  /**
   * The legacy format: the comma-separated pieces that are not blank, each
   * kept untrimmed, every one of them, in order.
   */
  function CommaPieces(raw: string): (r: seq<string>)
    ensures forall k :: 0 <= k < |r| ==> NonBlank(r[k])
    ensures IsSubseq(r, Split(raw, {','}))
    ensures forall x :: multiset(r)[x] == if NonBlank(x) then multiset(Split(raw, {','}))[x] else 0
  {
    FilterMultiset(NonBlank, Split(raw, {','}));
    Filter(NonBlank, Split(raw, {','}))
  }

  /**
   * The image list of a draft being opened. `parsed` is `JSON.parse(raw)`,
   * `None` when it throws. An array gives its non-blank strings, a single
   * value itself when it is a non-blank string; when the text is not JSON,
   * or a truthy non-string makes the blank test throw, the raw text is
   * split on commas instead.
   */
  function ImageUrls(raw: string, parsed: Option<Json>): (r: seq<string>)
    ensures raw == [] ==> r == []
    ensures forall k :: 0 <= k < |r| ==> NonBlank(r[k])
    ensures raw != [] && parsed.None? ==> r == CommaPieces(raw)
    ensures raw != [] && parsed.Some? && parsed.value.JArr? ==>
      if exists i :: 0 <= i < |parsed.value.items| && TrimThrows(parsed.value.items[i]) then r == CommaPieces(raw)
      else r == Map(TextOf, Filter(IsNonBlankString, parsed.value.items))
    ensures raw != [] && parsed.Some? && !parsed.value.JArr? ==>
      if TrimThrows(parsed.value) then r == CommaPieces(raw)
      else r == (if IsNonBlankString(parsed.value) then [parsed.value.s] else [])
  {
    if raw == [] then []
    else if parsed.None? then CommaPieces(raw)
    else if parsed.value.JArr? then
      if exists i :: 0 <= i < |parsed.value.items| && TrimThrows(parsed.value.items[i]) then CommaPieces(raw)
      else NonBlankStrings(parsed.value.items)
    else if TrimThrows(parsed.value) then CommaPieces(raw)
    else NonBlankStrings([parsed.value])
  }

  /** The bucket's public address; its only 'm' is the one that starts "myqcloud.com/". */
  const HOST: string := "https://" + "xhs-notes-" + "resources-" + "1347723456" + ".cos.ap-" + "guangzhou."
  const MARKER: string := "myqcloud.com/"

  function BucketBase(): string { HOST + MARKER }

  /** A stored path becomes a full URL; anything starting with "http" already is one. `encode` is `encodeURI`. */
  function CompleteUrl(url: string, encode: string -> string): (r: string)
    ensures StartsWith(url, "http") ==> r == url
    ensures !StartsWith(url, "http") ==> r == BucketBase() + encode(url)
  {
    if StartsWith(url, "http") then url else BucketBase() + encode(url)
  }

  /** The upload entries shown for the stored images. */
  function ExistingFiles(urls: seq<string>, encode: string -> string): (r: seq<UploadFile>)
    ensures |r| == |urls|
    ensures forall i :: 0 <= i < |r| ==> r[i].uid == "existing-" + NatToString(i) && r[i].status == "done"
    ensures forall i :: 0 <= i < |r| ==> r[i].url == CompleteUrl(urls[i], encode) && !r[i].hasOriginal
  {
    seq(|urls|, i requires 0 <= i < |urls| =>
      UploadFile("existing-" + NatToString(i), "image-" + NatToString(i) + ".jpg", "done", CompleteUrl(urls[i], encode), false))
  }

  /** The entries of one draft never share a uid. */
  lemma ExistingUidsDistinct(urls: seq<string>, encode: string -> string)
    ensures forall i, j :: 0 <= i < j < |urls| ==> ExistingFiles(urls, encode)[i].uid != ExistingFiles(urls, encode)[j].uid
  {
    var r := ExistingFiles(urls, encode);
    forall i, j | 0 <= i < j < |urls| ensures r[i].uid != r[j].uid {
      var p := "existing-";
      if r[i].uid == r[j].uid {
        assert r[i].uid[|p|..] == NatToString(i);
        assert r[j].uid[|p|..] == NatToString(j);
        NatToStringInjective(i, j);
      }
    }
  }

  /** `url.split(sep)[1]`: the text between the first and the second `sep`. */
  function SecondPiece(url: string, sep: string): (r: string)
    requires Contains(url, sep)
  {
    var rest := url[IndexOf(url, sep) + |sep|..];
    var j := IndexOf(rest, sep);
    if j < 0 then rest else rest[..j]
  }

  /** Back from a URL to the stored path: the text after "myqcloud.com/", or the URL itself. */
  function StoredPath(url: string): (r: string)
    ensures !Contains(url, MARKER) ==> r == url
  {
    if Contains(url, MARKER) then SecondPiece(url, MARKER) else url
  }

  lemma HostHasNoM()
    ensures NoneOf(HOST, {MARKER[0]})
  {
    var a, b, c, d, e, f := "https://", "xhs-notes-", "resources-", "1347723456", ".cos.ap-", "guangzhou.";
    var m := {'m'};
    assert NoneOf(a, m) && NoneOf(b, m) && NoneOf(c, m) && NoneOf(d, m) && NoneOf(e, m) && NoneOf(f, m);
    NoneOfAppend(a, b, m);
    NoneOfAppend(a + b, c, m);
    NoneOfAppend(a + b + c, d, m);
    NoneOfAppend(a + b + c + d, e, m);
    NoneOfAppend(a + b + c + d + e, f, m);
  }

  /**
   * Completing a stored path and reading it back gives the path again, for
   * paths `encodeURI` leaves alone that do not start with "http" and do not
   * themselves contain "myqcloud.com/".
   */
  lemma {:induction false} StoredPathInvertsCompletion(path: string, encode: string -> string)
    requires !StartsWith(path, "http") && encode(path) == path && !Contains(path, MARKER)
    ensures StoredPath(CompleteUrl(path, encode)) == path
  {
    var url := CompleteUrl(path, encode);
    assert url == HOST + MARKER + path;
    HostHasNoM();
    IndexOfAfter(HOST, MARKER, path);
    ContainsAt(url, MARKER, |HOST|);
    assert url[|HOST| + |MARKER|..] == path;
  }

  /** A full URL elsewhere is kept as it is. */
  lemma ForeignUrlKept(url: string, encode: string -> string)
    requires StartsWith(url, "http") && !Contains(url, MARKER)
    ensures StoredPath(CompleteUrl(url, encode)) == url
  {
  }

  /**
   * `uploadImagesToCOS`: nothing to do without files, account or email;
   * otherwise every entry is turned into its path, and one failure fails
   * the whole save. `uploadError` is the storage upload's outcome for a
   * new file: `None` when it succeeds, its error message when it throws.
   */
  function UploadPaths(files: seq<UploadFile>, account: string, email: string, uploadError: UploadFile -> Option<string>): (r: Result<seq<string>>)
    ensures files == [] || account == [] || email == [] ==> r == Ok([])
    ensures files != [] && account != [] && email != [] ==> r == PathsOf(files, account, email, uploadError)
  {
    if files == [] || account == [] || email == [] then Ok([]) else PathsOf(files, account, email, uploadError)
  }

  /**
   * One entry's path: a loaded image gives back its stored path; a new file
   * needs its file object and a successful upload, and is then stored under
   * email/account/name.
   */
  function PathOf(f: UploadFile, account: string, email: string, uploadError: UploadFile -> Option<string>): (r: Result<string>)
    ensures StartsWith(f.uid, "existing-") ==> r == Ok(StoredPath(f.url))
    ensures !StartsWith(f.uid, "existing-") ==>
      (r.Ok? <==> f.hasOriginal && uploadError(f).None?)
    ensures !StartsWith(f.uid, "existing-") && r.Ok? ==> r.value == email + "/" + account + "/" + f.name
    ensures !StartsWith(f.uid, "existing-") && !f.hasOriginal ==> r == Err("文件 " + f.name + " 缺少原始文件对象")
    ensures !StartsWith(f.uid, "existing-") && f.hasOriginal && uploadError(f).Some? ==> r == Err(uploadError(f).value)
  {
    if StartsWith(f.uid, "existing-") then Ok(StoredPath(f.url))
    else if !f.hasOriginal then Err("文件 " + f.name + " 缺少原始文件对象")
    else if uploadError(f).Some? then Err(uploadError(f).value)
    else Ok(email + "/" + account + "/" + f.name)
  }

  /** `Promise.all` over the entries: the paths in entry order, or a failure when any entry fails. */
  function PathsOf(files: seq<UploadFile>, account: string, email: string, uploadError: UploadFile -> Option<string>): (r: Result<seq<string>>)
    ensures r.Ok? ==> |r.value| == |files|
    ensures r.Ok? ==> forall i :: 0 <= i < |files| ==> PathOf(files[i], account, email, uploadError) == Ok(r.value[i])
    ensures r.Err? <==> exists i :: 0 <= i < |files| && PathOf(files[i], account, email, uploadError).Err?
    decreases |files|
  {
    if files == [] then Ok([])
    else
      match PathOf(files[0], account, email, uploadError)
      case Err(m) => Err(m)
      case Ok(p) =>
        match PathsOf(files[1..], account, email, uploadError)
        case Err(m) =>
          assert exists i :: 0 <= i < |files| && PathOf(files[i], account, email, uploadError).Err? by {
            var i :| 0 <= i < |files[1..]| && PathOf(files[1..][i], account, email, uploadError).Err?;
            assert files[i + 1] == files[1..][i];
          }
          Err(m)
        case Ok(ps) =>
          assert forall i :: 1 <= i < |files| ==> files[i] == files[1..][i - 1];
          Ok([p] + ps)
  }

  /** Reopening a draft and saving it unchanged writes back the same paths. */
  lemma ReopenKeepsPaths(paths: seq<string>, encode: string -> string, account: string, email: string, uploadError: UploadFile -> Option<string>)
    requires forall i :: 0 <= i < |paths| ==>
      (NonBlank(paths[i]) && !StartsWith(paths[i], "http") && encode(paths[i]) == paths[i] && !Contains(paths[i], MARKER))
    requires paths != [] && account != [] && email != []
    ensures var urls := ImageUrls("[]", Some(StringArray(paths)));
      urls == paths && UploadPaths(ExistingFiles(urls, encode), account, email, uploadError) == Ok(paths)
  {
    ReopenedUrls(paths);
    ResavedPaths(paths, encode, account, email, uploadError);
  }

  /** A stored array of non-blank strings reads back as those strings. */
  lemma ReopenedUrls(paths: seq<string>)
    requires paths != [] && forall i :: 0 <= i < |paths| ==> NonBlank(paths[i])
    ensures ImageUrls("[]", Some(StringArray(paths))) == paths
  {
    var arr := StringArray(paths);
    assert !exists i :: 0 <= i < |arr.items| && TrimThrows(arr.items[i]);
    StringsKept(paths);
  }

  /** Saving the entries of stored paths, untouched, gives back the paths. */
  lemma ResavedPaths(paths: seq<string>, encode: string -> string, account: string, email: string, uploadError: UploadFile -> Option<string>)
    requires forall i :: 0 <= i < |paths| ==>
      (!StartsWith(paths[i], "http") && encode(paths[i]) == paths[i] && !Contains(paths[i], MARKER))
    requires paths != [] && account != [] && email != []
    ensures UploadPaths(ExistingFiles(paths, encode), account, email, uploadError) == Ok(paths)
  {
    var files := ExistingFiles(paths, encode);
    forall i | 0 <= i < |files| ensures PathOf(files[i], account, email, uploadError) == Ok(paths[i]) {
      assert StartsWith(files[i].uid, "existing-");
      StoredPathInvertsCompletion(paths[i], encode);
    }
    var r := UploadPaths(files, account, email, uploadError);
    assert r == PathsOf(files, account, email, uploadError);
    assert !exists i :: 0 <= i < |files| && PathOf(files[i], account, email, uploadError).Err?;
    assert r.value == paths;
  }

  lemma StringsKept(paths: seq<string>)
    requires forall i :: 0 <= i < |paths| ==> NonBlank(paths[i])
    ensures NonBlankStrings(StringArray(paths).items) == paths
  {
    StringsOfItems(StringArray(paths).items, paths);
  }

  /** The non-blank strings of an array whose items are exactly the non-blank strings `paths`. */
  lemma {:induction false} StringsOfItems(items: seq<Json>, paths: seq<string>)
    requires |items| == |paths|
    requires forall i :: 0 <= i < |paths| ==> items[i] == JStr(paths[i]) && NonBlank(paths[i])
    ensures NonBlankStrings(items) == paths
    decreases |items|
  {
    if items != [] {
      var it, ps := items[1..], paths[1..];
      forall i | 0 <= i < |ps| ensures it[i] == JStr(ps[i]) && NonBlank(ps[i]) {
        assert it[i] == items[i + 1] && ps[i] == paths[i + 1];
      }
      StringsOfItems(it, ps);
      StringsOfItemsCons(items, paths);
    }
  }

  /** The step of `StringsOfItems`: a non-blank string in front is kept in front. */
  lemma StringsOfItemsCons(items: seq<Json>, paths: seq<string>)
    requires |items| == |paths| > 0
    requires items[0] == JStr(paths[0]) && NonBlank(paths[0])
    requires NonBlankStrings(items[1..]) == paths[1..]
    ensures NonBlankStrings(items) == paths
  {
    calc {
      NonBlankStrings(items);
      [paths[0]] + NonBlankStrings(items[1..]);
      [paths[0]] + paths[1..];
      { ConsSplit(paths); }
      paths;
    }
  }

  /** The edit form's values, `||`-defaulted to "". */
  datatype FormValues = FormValues(title: string, content: string, account: string, deviceId: string, topic: string, user: string)

  datatype NoteUpdate = NoteUpdate(
    templateId: string, email: string, title: string, content: string, author: string, deviceId: string,
    imgList: JsonText, status: int, atUsers: JsonText, noteTags: JsonText)

  const DRAFT_STATUS := 0
  const PUBLISH_STATUS := 2

  const MSG_NO_DRAFT := "没有正在编辑的草稿"
  const MSG_UPLOAD_FAILED := "图片上传失败，请重试"

  /**
   * The update sent by "save" (`submit` false) or "submit": no draft open
   * and a failed upload are errors; the image list is blank without files
   * and otherwise the JSON array of the uploaded paths; the topic and
   * @-user fields are stored as JSON arrays of the parsed lists.
   */
  function DraftUpdate(editing: Option<Note>, email: string, values: FormValues, files: seq<UploadFile>, submit: bool,
                       uploadError: UploadFile -> Option<string>): (r: Result<NoteUpdate>)
    ensures editing.None? ==> r == Err(MSG_NO_DRAFT)
    ensures editing.Some? && files != [] && UploadPaths(files, values.account, email, uploadError).Err? ==> r == Err(MSG_UPLOAD_FAILED)
    ensures editing.Some? && (files == [] || UploadPaths(files, values.account, email, uploadError).Ok?) ==> r.Ok?
    ensures r.Ok? ==> r.value.status == (if submit then PUBLISH_STATUS else DRAFT_STATUS)
    ensures r.Ok? ==> r.value.templateId == editing.value.id && r.value.email == email
    ensures r.Ok? ==> (r.value.title == values.title && r.value.content == values.content
      && r.value.author == values.account && r.value.deviceId == values.deviceId)
    ensures r.Ok? ==> NoteText.SafeParseAtUsers(r.value.atUsers) == StringArray(NoteText.ParseList(values.user)).items
    ensures r.Ok? ==> r.value.noteTags == Parsed(StringArray(NoteText.ParseList(values.topic)))
    ensures r.Ok? && files == [] ==> r.value.imgList == Blank
    ensures r.Ok? && files != [] ==> r.value.imgList == Parsed(StringArray(UploadPaths(files, values.account, email, uploadError).value))
  {
    if editing.None? then Err(MSG_NO_DRAFT)
    else
      var uploaded := if files == [] then Ok([]) else UploadPaths(files, values.account, email, uploadError);
      if uploaded.Err? then Err(MSG_UPLOAD_FAILED)
      else
        var users := NoteText.ParseList(values.user);
        var topics := NoteText.ParseList(values.topic);
        Ok(NoteUpdate(editing.value.id, email, values.title, values.content, values.account, values.deviceId,
          if files == [] then Blank else Parsed(StringArray(uploaded.value)),
          if submit then PUBLISH_STATUS else DRAFT_STATUS,
          Parsed(StringArray(users)), Parsed(StringArray(topics))))
  }

  /**
   * Saving a reopened draft unchanged succeeds and writes back its stored
   * paths, whatever the storage would answer to new uploads.
   */
  lemma ResaveReopenedDraft(note: Note, paths: seq<string>, encode: string -> string, email: string, values: FormValues,
                            submit: bool, uploadError: UploadFile -> Option<string>)
    requires forall i :: 0 <= i < |paths| ==>
      (NonBlank(paths[i]) && !StartsWith(paths[i], "http") && encode(paths[i]) == paths[i] && !Contains(paths[i], MARKER))
    requires paths != [] && values.account != [] && email != []
    ensures var r := DraftUpdate(Some(note), email, values, ExistingFiles(paths, encode), submit, uploadError);
      r.Ok? && r.value.imgList == Parsed(StringArray(paths))
  {
    ResavedPaths(paths, encode, values.account, email, uploadError);
  }
}
