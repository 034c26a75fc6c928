/**
 * The image-upload helpers shared by the note wizards and the drafts
 * editor: the pre-upload check of a picked file, the upload-list entries,
 * removing an entry, and the comma-separated image-path field.
 */
module Uploads {
  import opened Strings
  import opened Seqs

  /** A file the user picked: its MIME type and its size in bytes. */
  datatype PickedFile = PickedFile(mimeType: string, size: nat)

  /** An entry of the upload list; `hasOriginal` says whether the picked file object is still attached. */
  datatype UploadFile = UploadFile(uid: string, name: string, status: string, url: string, hasOriginal: bool)

  const MAX_FILE_MIB: nat := 5
  const MAX_IMAGE_COUNT: nat := 9

  datatype UploadCheck = Accepted | WrongType | TooLarge

  /**
   * `beforeUpload`: the type must be one of `types` (checked first), and
   * the size in MiB, `size / 1024 / 1024`, must be below 5.
   */
  function BeforeUpload(types: seq<string>, f: PickedFile): (r: UploadCheck)
    ensures r == Accepted <==> f.mimeType in types && f.size < MAX_FILE_MIB * 1024 * 1024
    ensures r == WrongType <==> f.mimeType !in types
    ensures r == TooLarge <==> f.mimeType in types && f.size >= 5_242_880
  {
    if f.mimeType !in types then WrongType
    else if f.size as real / 1024.0 / 1024.0 < MAX_FILE_MIB as real then Accepted
    else TooLarge
  }

  /** The upload button is offered only while fewer than nine images are listed. */
  function ShowUploadButton(files: seq<UploadFile>): (r: bool)
    ensures r ==> |files| + 1 <= MAX_IMAGE_COUNT
    ensures !r ==> |files| >= MAX_IMAGE_COUNT
  {
    |files| < MAX_IMAGE_COUNT
  }

  /** `handleRemove`: every entry with that uid goes, nothing else. */
  function RemoveFile(files: seq<UploadFile>, uid: string): (r: seq<UploadFile>)
    ensures IsSubseq(r, files)
    ensures forall f :: f in r ==> f.uid != uid
    ensures forall i :: 0 <= i < |files| && files[i].uid != uid ==> files[i] in r
    ensures forall f :: multiset(r)[f] == if f.uid != uid then multiset(files)[f] else 0
  {
    var keep := (f: UploadFile) => f.uid != uid;
    FilterMultiset(keep, files);
    Filter(keep, files)
  }

  /** A finished upload with a name contributes a path. */
  predicate IsDone(f: UploadFile)
  {
    f.status == "done" && f.name != []
  }

  function PathFor(email: string, account: string, f: UploadFile): string
  {
    email + "/" + account + "/" + f.name
  }

  /** The `email/account/name` path of every finished file, in list order. */
  function DonePaths(files: seq<UploadFile>, email: string, account: string): (r: seq<string>)
    ensures forall p :: p in r ==> exists i :: 0 <= i < |files| && IsDone(files[i]) && p == PathFor(email, account, files[i])
    ensures forall i :: 0 <= i < |files| && IsDone(files[i]) ==> PathFor(email, account, files[i]) in r
    ensures (exists i :: 0 <= i < |files| && IsDone(files[i])) ==> |r| >= 1
    ensures |r| == |Filter(IsDone, files)|
    ensures forall k :: 0 <= k < |r| ==> r[k] == PathFor(email, account, Filter(IsDone, files)[k])
    ensures files == [] ==> r == []
  {
    var done := Filter(IsDone, files);
    var r := Map((f: UploadFile) => PathFor(email, account, f), done);
    forall p | p in r ensures exists i :: 0 <= i < |files| && IsDone(files[i]) && p == PathFor(email, account, files[i]) {
      var k :| 0 <= k < |r| && r[k] == p;
      assert done[k] in done;
      var i :| 0 <= i < |files| && files[i] == done[k];
    }
    forall i | 0 <= i < |files| && IsDone(files[i]) ensures PathFor(email, account, files[i]) in r {
      var k :| 0 <= k < |done| && done[k] == files[i];
      assert r[k] == PathFor(email, account, files[i]);
    }
    r
  }

  /**
   * `generateImagePaths`: "" without an email or without an account (the
   * given one, else the note's); otherwise the paths of the finished files
   * joined by ','.
   */
  function GenerateImagePaths(files: seq<UploadFile>, email: string, accountArg: string, noteAccount: string): (r: string)
    ensures email == [] ==> r == []
    ensures accountArg == [] && noteAccount == [] ==> r == []
    ensures r != [] ==> exists i :: 0 <= i < |files| && IsDone(files[i])
    ensures email != [] && (accountArg != [] || noteAccount != []) ==>
      r == Join(DonePaths(files, email, if accountArg != [] then accountArg else noteAccount), ",")
  {
    if email == [] then []
    else
      var account := if accountArg != [] then accountArg else noteAccount;
      if account == [] then []
      else
        var paths := DonePaths(files, email, account);
        assert paths != [] ==> paths[0] in paths;
        Join(paths, ",")
  }

  /** The first file contributes its path, when finished, in front of the rest's. */
  lemma DonePathsCons(f: UploadFile, rest: seq<UploadFile>, email: string, account: string)
    ensures DonePaths([f] + rest, email, account) ==
      (if IsDone(f) then [PathFor(email, account, f)] else []) + DonePaths(rest, email, account)
  {
    FilterCons(IsDone, f, rest);
  }

  /** Comma-free parts give comma-free paths. */
  lemma PathForNoComma(email: string, account: string, f: UploadFile)
    requires NoneOf(email, {','}) && NoneOf(account, {','}) && NoneOf(f.name, {','})
    ensures NoneOf(PathFor(email, account, f), {','})
  {
    NoneOfAppend(email, "/", {','});
    NoneOfAppend(email + "/", account, {','});
    NoneOfAppend(email + "/" + account, "/", {','});
    NoneOfAppend(email + "/" + account + "/", f.name, {','});
  }

  /**
   * When no part holds a comma, splitting the field on ',' gives back the
   * path of every finished file, in order: the field is a faithful
   * encoding of the list.
   */
  lemma ImagePathsParse(files: seq<UploadFile>, email: string, accountArg: string, noteAccount: string)
    requires email != [] && (accountArg != [] || noteAccount != [])
    requires NoneOf(email, {','}) && NoneOf(accountArg, {','}) && NoneOf(noteAccount, {','})
    requires forall i :: 0 <= i < |files| ==> NoneOf(files[i].name, {','})
    requires exists i :: 0 <= i < |files| && IsDone(files[i])
    ensures var account := if accountArg != [] then accountArg else noteAccount;
      Split(GenerateImagePaths(files, email, accountArg, noteAccount), {','}) == DonePaths(files, email, account)
  {
    var account := if accountArg != [] then accountArg else noteAccount;
    var paths := DonePaths(files, email, account);
    forall k | 0 <= k < |paths| ensures NoneOf(paths[k], {','}) {
      assert paths[k] in paths;
      var i :| 0 <= i < |files| && IsDone(files[i]) && paths[k] == PathFor(email, account, files[i]);
      PathForNoComma(email, account, files[i]);
    }
    SplitJoin(paths, ',', {','});
  }
}
