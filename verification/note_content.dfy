/**
 * The form step of the note wizard: the pre-upload check with its list of
 * supported image types, the form-change handler that turns edited fields
 * into a partial update of the note (topics and @-users parsed, the
 * device of the chosen account looked up, image paths regenerated), and
 * "clear all images".
 */
module NoteContent {
  import opened Base
  import opened Strings
  import opened Seqs
  import opened JsonValues
  import opened Uploads
  import NoteText

  /**
   * The note being written. Empty text stands for a field that is not set;
   * `atUsers` is the stored JSON text of the @-user list.
   */
  datatype NoteFormData = NoteFormData(
    title: string, content: string, tags: seq<string>, atUsers: JsonText,
    images: string, visibility: string, account: string, deviceId: string)

  /** `CONSTANTS.INITIAL_NOTE_DATA`. */
  const INITIAL_NOTE_DATA := NoteFormData("", "", [], Blank, "", "公开可见", "", "")

  /** A partial update: `None` leaves the field as it is. */
  datatype NoteChange = NoteChange(
    title: Option<string>, content: Option<string>, tags: Option<seq<string>>, atUsers: Option<JsonText>,
    images: Option<string>, visibility: Option<string>, account: Option<string>, deviceId: Option<string>)

  const NO_CHANGE := NoteChange(None, None, None, None, None, None, None, None)

  /** The form fields an edit touched; `None` for a field that did not change. */
  datatype FormEdit = FormEdit(
    title: Option<string>, content: Option<string>, topic: Option<string>, user: Option<string>,
    visibility: Option<string>, account: Option<string>)

  /** The supported types as the constants file lists them. */
  const SUPPORTED_IMAGE_TYPES_AS_WRITTEN: seq<string> := ["image/jpg", "image/png"]

  /** The types the error message promises (JPG, PNG, GIF), under their registered names. */
  const SUPPORTED_IMAGE_TYPES: seq<string> := ["image/jpeg", "image/png", "image/gif"]

  /** `beforeUpload` with the list as written. */
  function BeforeUploadAsWritten(f: PickedFile): (r: UploadCheck)
    ensures r == Accepted <==> f.mimeType in {"image/jpg", "image/png"} && f.size < 5 * 1024 * 1024
  {
    BeforeUpload(SUPPORTED_IMAGE_TYPES_AS_WRITTEN, f)
  }

  /** Browsers report a JPEG file as "image/jpeg", which the list as written turns away. */
  lemma JpegRejectedAsWritten()
    ensures BeforeUploadAsWritten(PickedFile("image/jpeg", 1000)) == WrongType
  {
    assert "image/jpeg" != "image/jpg" by {
      assert |"image/jpeg"| != |"image/jpg"|;
    }
    assert "image/jpeg" != "image/png" by {
      assert "image/jpeg"[6] != "image/png"[6];
    }
  }

  /** `beforeUpload` with the corrected list. */
  function BeforeUploadFixed(f: PickedFile): (r: UploadCheck)
    ensures r == Accepted <==> f.mimeType in {"image/jpeg", "image/png", "image/gif"} && f.size < 5 * 1024 * 1024
  {
    BeforeUpload(SUPPORTED_IMAGE_TYPES, f)
  }

  /** JPEG, PNG and GIF files under 5 MiB are accepted, and nothing else is. */
  lemma FixedAcceptsAdvertisedTypes(f: PickedFile)
    ensures BeforeUploadFixed(f) == Accepted <==>
      (f.mimeType == "image/jpeg" || f.mimeType == "image/png" || f.mimeType == "image/gif") && f.size < 5_242_880
  {
  }

  /** An entry of the account list: an object whose first entry maps a device id to an account name, or anything else. */
  datatype DeviceItem = NotAnObject | Entries(entries: seq<(string, Json)>)

  predicate NamesAccount(item: DeviceItem, account: string)
  {
    item.Entries? && |item.entries| > 0 && item.entries[0].1 == JStr(account)
  }

  function DeviceKey(item: DeviceItem): string
    requires item.Entries? && |item.entries| > 0
  {
    item.entries[0].0
  }

  /**
   * The device of an account: the key of the last list item whose first
   * entry names the account, or "" when none does.
   */
  function DeviceIdFor(items: seq<DeviceItem>, account: string): string
    decreases |items|
  {
    if items == [] then ""
    else if NamesAccount(items[|items| - 1], account) then DeviceKey(items[|items| - 1])
    else DeviceIdFor(items[..|items| - 1], account)
  }

  /** Item `i` names the account and no later item does. */
  predicate LastNaming(items: seq<DeviceItem>, account: string, i: int)
  {
    0 <= i < |items| && NamesAccount(items[i], account) && forall j :: i < j < |items| ==> !NamesAccount(items[j], account)
  }

  /** When no item names the account, there is no device. */
  lemma {:induction false} DeviceIdNone(items: seq<DeviceItem>, account: string)
    requires forall i :: 0 <= i < |items| ==> !NamesAccount(items[i], account)
    ensures DeviceIdFor(items, account) == ""
    decreases |items|
  {
    if items != [] {
      var n := |items| - 1;
      assert forall i :: 0 <= i < n ==> items[..n][i] == items[i];
      DeviceIdNone(items[..n], account);
    }
  }

  /** Otherwise the device is the key of the last item naming the account. */
  lemma {:induction false} DeviceIdLast(items: seq<DeviceItem>, account: string, i: int)
    requires LastNaming(items, account, i)
    ensures DeviceIdFor(items, account) == DeviceKey(items[i])
    decreases |items|
  {
    var n := |items| - 1;
    if i < n {
      var init := items[..n];
      assert forall k :: 0 <= k < n ==> init[k] == items[k];
      assert LastNaming(init, account, i);
      DeviceIdLast(init, account, i);
    }
  }

  /** The `forEach` scan over the list, overwriting the id at every match, finds the same device. */
  method ScanDeviceId(items: seq<DeviceItem>, account: string) returns (deviceId: string)
    ensures deviceId == DeviceIdFor(items, account)
  {
    deviceId := "";
    var k := 0;
    while k < |items|
      invariant 0 <= k <= |items|
      invariant deviceId == DeviceIdFor(items[..k], account)
    {
      assert items[..k + 1][..k] == items[..k];
      if NamesAccount(items[k], account) {
        deviceId := DeviceKey(items[k]);
      }
      k := k + 1;
    }
    assert items[..|items|] == items;
  }

  /**
   * `onFormValuesChange`: only the edited fields appear in the update. Topics
   * are parsed into a list, @-users are stored as the JSON array of the
   * parsed names, and a new account also sets its device and, when images
   * are listed, regenerates their paths under that account.
   */
  function FormValuesChange(edit: FormEdit, devices: seq<DeviceItem>, files: seq<UploadFile>, email: string, noteAccount: string): (r: NoteChange)
    ensures r.title == edit.title && r.content == edit.content && r.visibility == edit.visibility
    ensures r.account == edit.account
    ensures r.tags.Some? <==> edit.topic.Some?
    ensures r.tags.Some? ==> forall k :: 0 <= k < |r.tags.value| ==> NoteText.IsEntry(r.tags.value[k])
    ensures r.tags.Some? ==> r.tags.value == Filter(NoteText.NotEmpty, Map(Trim, Split(edit.topic.value, NoteText.SEPARATORS)))
    ensures r.atUsers.Some? <==> edit.user.Some?
    ensures r.atUsers.Some? ==> HoldsStrings(r.atUsers.value, Filter(NoteText.NotEmpty, Map(Trim, Split(edit.user.value, NoteText.SEPARATORS))))
    ensures r.atUsers.Some? ==> NoteText.SafeParseAtUsers(r.atUsers.value) == StringArray(NoteText.ParseList(edit.user.value)).items
    ensures r.deviceId.Some? <==> edit.account.Some?
    ensures r.deviceId.Some? ==> r.deviceId.value == DeviceIdFor(devices, edit.account.value)
    ensures r.images.Some? <==> edit.account.Some? && files != []
    ensures r.images.Some? ==> r.images.value == GenerateImagePaths(files, email, edit.account.value, noteAccount)
  {
    NoteChange(
      edit.title, edit.content,
      if edit.topic.Some? then Some(NoteText.ParseList(edit.topic.value)) else None,
      if edit.user.Some? then Some(Parsed(StringArray(NoteText.ParseList(edit.user.value)))) else None,
      if edit.account.Some? && |files| > 0 then Some(GenerateImagePaths(files, email, edit.account.value, noteAccount)) else None,
      edit.visibility, edit.account,
      if edit.account.Some? then Some(DeviceIdFor(devices, edit.account.value)) else None)
  }

  /** "Clear all images": no files are left, and the only change sent is an empty image field. */
  function ClearAllImages(): (r: (seq<UploadFile>, NoteChange))
    ensures r.0 == [] && r.1.images == Some("")
    ensures r.1.(images := None) == NO_CHANGE
  {
    ([], NO_CHANGE.(images := Some("")))
  }
}
