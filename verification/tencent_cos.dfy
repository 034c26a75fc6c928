/**
 * The object-storage client: where an uploaded file is stored (its object
 * key), which upload method its size selects, the URL it is reachable at,
 * and how a bucket listing is turned into file entries. The storage SDK's
 * callbacks are inputs: the upload's error message, if any, and the URL
 * the SDK offers, if it offers one.
 */
module TencentCos {
  import opened Base
  import opened Strings
  import opened Seqs

  /** Files below 10 MiB are sent in one request; larger ones in 5 MiB slices. */
  const SIMPLE_UPLOAD_LIMIT := 10 * 1024 * 1024
  const SLICE_SIZE := 5 * 1024 * 1024

  const OCTET_STREAM := "application/octet-stream"
  const CORS_MESSAGE := "上传失败: 跨域请求(CORS)被拒绝。请联系管理员在腾讯云COS控制台配置存储桶的CORS规则。"

  /** The MIME type for each known extension. */
  const MIME_TYPES: map<string, string> := map[
    "pdf" := "application/pdf",
    "doc" := "application/msword",
    "docx" := "application/vnd.openxmlformats-officedocument.wordprocessingml.document",
    "xls" := "application/vnd.ms-excel",
    "xlsx" := "application/vnd.openxmlformats-officedocument.spreadsheetml.sheet",
    "ppt" := "application/vnd.ms-powerpoint",
    "pptx" := "application/vnd.openxmlformats-officedocument.presentationml.presentation",
    "txt" := "text/plain",
    "csv" := "text/csv"]

  datatype CosConfig = CosConfig(bucket: string, region: string)

  /** A file picked for upload. */
  datatype LocalFile = LocalFile(name: string, size: int)

  /** The folder part of a key: empty stays empty, and a missing trailing '/' is added. */
  function NormalizedPath(path: string): (r: string)
    ensures path == "" ==> r == ""
    ensures path != "" ==> |path| <= |r| && r[|r| - 1] == '/' && r[..|path|] == path
    ensures path != "" && path[|path| - 1] == '/' ==> r == path
    ensures path != "" && path[|path| - 1] != '/' ==> r == path + "/"
  {
    if path == "" then ""
    else if path[|path| - 1] == '/' then path
    else path + "/"
  }

  /** The object key of an upload: the normalised folder followed by the file name. */
  function ObjectKey(path: string, name: string): (r: string)
    ensures path == "" ==> r == name
    ensures |r| >= |name| && r[|r| - |name|..] == name
    ensures |r| >= |path|
    ensures path != "" ==> |path| < |r| + 1 && r[..|path|] == path
  {
    NormalizedPath(path) + name
  }

  /** The upload request a file's size selects. */
  datatype UploadMode = PutObject | SliceUpload(sliceSize: nat)

  function ModeFor(size: int): (r: UploadMode)
    ensures r.PutObject? <==> size < SIMPLE_UPLOAD_LIMIT
    ensures r.SliceUpload? ==> r.sliceSize == SLICE_SIZE
  {
    if size < SIMPLE_UPLOAD_LIMIT then PutObject else SliceUpload(SLICE_SIZE)
  }

  /** `bucket || config.Bucket`. */
  function BucketFor(config: CosConfig, bucket: Option<string>): (r: string)
    ensures bucket.Some? && bucket.value != "" ==> r == bucket.value
    ensures bucket.None? || bucket.value == "" ==> r == config.bucket
  {
    if bucket.Some? && bucket.value != "" then bucket.value else config.bucket
  }

  /** The public URL of an object, built by hand. */
  function ObjectUrl(bucket: string, region: string, key: string): (r: string)
    ensures StartsWith(r, "https://" + bucket + ".cos." + region + ".myqcloud.com/")
    ensures |r| >= |key| && r[|r| - |key|..] == key
  {
    var host := "https://" + bucket + ".cos." + region + ".myqcloud.com/";
    assert (host + key)[..|host|] == host;
    host + key
  }

  datatype Uploaded = Uploaded(url: string, key: string)

  /**
   * `uploadFile`: both upload methods behave alike but for the request; an
   * SDK error is passed on, except that one mentioning CORS is replaced by
   * an explanation. On success the key is returned with the URL the SDK
   * gives, or the hand-built URL when it gives none.
   */
  function Upload(config: CosConfig, file: LocalFile, path: string, bucket: Option<string>,
                  uploadError: Option<string>, sdkUrl: Option<string>): (r: (UploadMode, Result<Uploaded>))
    ensures r.0 == ModeFor(file.size)
    ensures r.1.Err? <==> uploadError.Some?
    ensures uploadError.Some? ==> r.1.msg == if Contains(uploadError.value, "CORS") then CORS_MESSAGE else uploadError.value
    ensures r.1.Ok? ==> r.1.value.key == ObjectKey(path, file.name)
    ensures r.1.Ok? ==> r.1.value.url == sdkUrl.GetOr(ObjectUrl(BucketFor(config, bucket), config.region, r.1.value.key))
  {
    var key := ObjectKey(path, file.name);
    var outcome :=
      match uploadError
      case Some(msg) => Err(if Contains(msg, "CORS") then CORS_MESSAGE else msg)
      case None =>
        match sdkUrl
        case Some(url) => Ok(Uploaded(url, key))
        case None => Ok(Uploaded(ObjectUrl(BucketFor(config, bucket), config.region, key), key));
    (ModeFor(file.size), outcome)
  }

  /** An object as the bucket listing reports it. */
  datatype CosObject = CosObject(key: string, size: int, lastModified: string)

  datatype CosFileItem = CosFileItem(key: string, name: string, url: string, size: int, lastModified: string, fileType: string)

  /** `getFileTypeFromKey`: the lower-cased text after the last '.', looked up in the table. */
  function FileType(key: string): (r: string)
    ensures Lower(LastPiece(key, {'.'})) in MIME_TYPES ==> r == MIME_TYPES[Lower(LastPiece(key, {'.'}))]
    ensures Lower(LastPiece(key, {'.'})) !in MIME_TYPES ==> r == OCTET_STREAM
  {
    var ext := Lower(LastPiece(key, {'.'}));
    if ext in MIME_TYPES then MIME_TYPES[ext] else OCTET_STREAM
  }

  /** A file named `stem.ext` gets the type of `ext`, whatever its case and folder. */
  lemma FileTypeByExtension(prefix: string, ext: string)
    requires NoneOf(ext, {'.'})
    ensures FileType(prefix + "." + ext) == if Lower(ext) in MIME_TYPES then MIME_TYPES[Lower(ext)] else OCTET_STREAM
  {
    LastPieceAfter(prefix, '.', ext, {'.'});
  }

  /** One listing entry: the name is the last '/'-segment of the key, the URL uses the configured bucket. */
  function ListItem(config: CosConfig, o: CosObject): (r: CosFileItem)
    ensures r.key == o.key && r.size == o.size && r.lastModified == o.lastModified
    ensures r.name == LastPiece(o.key, {'/'}) && NoneOf(r.name, {'/'})
    ensures r.url == ObjectUrl(config.bucket, config.region, o.key)
    ensures r.fileType == FileType(o.key)
  {
    CosFileItem(o.key, LastPiece(o.key, {'/'}), ObjectUrl(config.bucket, config.region, o.key), o.size, o.lastModified, FileType(o.key))
  }

  /** `listFiles`: one entry per listed object, in listing order. */
  function ListFiles(config: CosConfig, contents: seq<CosObject>): (r: seq<CosFileItem>)
    ensures |r| == |contents|
    ensures forall i :: 0 <= i < |r| ==> r[i] == ListItem(config, contents[i])
  {
    Map((o: CosObject) => ListItem(config, o), contents)
  }

  /** The last '/'-segment of an upload's key is the file's name. */
  lemma KeyEndsWithName(path: string, name: string)
    requires NoneOf(name, {'/'})
    ensures LastPiece(ObjectKey(path, name), {'/'}) == name
  {
    var norm := NormalizedPath(path);
    if path == "" {
      SplitNoSep(name, {'/'});
    } else {
      var dir := norm[..|norm| - 1];
      assert norm == dir + ['/'];
      assert ObjectKey(path, name) == dir + ['/'] + name;
      LastPieceAfter(dir, '/', name, {'/'});
    }
  }

  /**
   * Upload then list: a file uploaded into a folder, into the configured
   * bucket and without an SDK URL, is listed under its own name and at the
   * URL the upload returned.
   */
  lemma UploadedFileIsListed(config: CosConfig, file: LocalFile, path: string, size: int, lastModified: string)
    requires NoneOf(file.name, {'/'})
    ensures var up := Upload(config, file, path, None, None, None).1.value;
      var item := ListItem(config, CosObject(up.key, size, lastModified));
      item.name == file.name && item.url == up.url && item.key == up.key
  {
    var up := Upload(config, file, path, None, None, None).1.value;
    assert up.key == ObjectKey(path, file.name);
    assert BucketFor(config, None) == config.bucket;
    KeyEndsWithName(path, file.name);
  }
}
