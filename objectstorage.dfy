/**
 * Naming rules of the object-storage helpers (utils/OSS/OSS.go): where an
 * uploaded file is stored, the URL handed back, the 3 MiB cap and the
 * extension-to-content-type table.  The MinIO `PutObject` call itself is a
 * foreign collaborator, given as the function `put` that says whether storing
 * a given request succeeds.
 */
module ObjectStorage {

  import opened Wrappers
  import opened Text
  import Decimal

  /** Client settings (endpoint, bucket, use of TLS) loaded at startup. */
  datatype Config = Config(endpoint: string, bucket: string, useSSL: bool)

  /** A file part of a multipart form: its base name, its size in bytes, the
      Content-Type header the client sent, and whether opening it succeeds. */
  datatype FileHeader = FileHeader(filename: string, size: int, contentType: string, opens: bool)

  /** The request the foreign `PutObject` call is given. */
  datatype PutRequest = PutRequest(bucket: string, objectName: string, size: int, contentType: string)

  datatype UploadError = TooLarge | UnsupportedType(ext: string) | CannotOpen | PutFailed

  /** consts.TreeMB: three mebibytes. */
  const MaxFileSize: int := 3 * 1024 * 1024

  const ImageCategory := "images"
  const HtmlCategory := "html"
  const HtmlContentType := "text/html"

  /** A single path element: what `filepath.Join` leaves as it is. */
  predicate IsPathElement(s: string)
  {
    s != "" && s != "." && s != ".." && '/' !in s
  }

  /** Everything in a file URL before the object name. */
  function BaseURL(cfg: Config): string
  {
    (if cfg.useSSL then "https://" else "http://") + cfg.endpoint + "/" + cfg.bucket + "/"
  }

  /** GetFileURL: the public URL of an object of the configured bucket. */
  function GetFileURL(cfg: Config, objectName: string): (url: string)
    ensures HasPrefix(url, BaseURL(cfg)) && url[|BaseURL(cfg)|..] == objectName
    ensures HasPrefix(url, "https://") <==> cfg.useSSL
    ensures HasPrefix(url, "http://") <==> !cfg.useSSL
  {
    var url := BaseURL(cfg) + objectName;
    assert cfg.useSSL ==> url[..8] == "https://" && url[4] == 's';
    assert !cfg.useSSL ==> url[..7] == "http://" && url[4] == ':';
    url
  }

  /** Recovers the object name from a URL of the configured bucket. */
  function ObjectNameOf(cfg: Config, url: string): Option<string>
  {
    if HasPrefix(url, BaseURL(cfg)) then Some(url[|BaseURL(cfg)|..]) else None
  }

  lemma ObjectNameOfFileURL(cfg: Config, objectName: string)
    ensures ObjectNameOf(cfg, GetFileURL(cfg, objectName)) == Some(objectName)
  {
  }

  /** The stored object's full name: `filepath.Join(category, objectName)`
      when a category is given, else the name alone. */
  function ObjectPath(category: string, objectName: string): (path: string)
    requires category == "" || IsPathElement(category)
    requires IsPathElement(objectName)
    ensures category == "" ==> path == objectName
    ensures category != "" ==> HasPrefix(path, category + "/") && path[|category| + 1..] == objectName
  {
    if category != "" then category + "/" + objectName else objectName
  }

  /** UploadFileToOSS: stores the object and returns its URL, or the error
      and no URL when `PutObject` fails. */
  function UploadFileToOSS(cfg: Config, category: string, objectName: string, size: int,
                           contentType: string, put: PutRequest -> bool): (r: Result<string, UploadError>)
    requires category == "" || IsPathElement(category)
    requires IsPathElement(objectName)
    ensures r.Ok? <==> put(PutRequest(cfg.bucket, ObjectPath(category, objectName), size, contentType))
    ensures r.Ok? ==> ObjectNameOf(cfg, r.value) == Some(ObjectPath(category, objectName))
    ensures r.Err? ==> r.error == PutFailed
  {
    var fullName := ObjectPath(category, objectName);
    if put(PutRequest(cfg.bucket, fullName, size, contentType)) then Ok(GetFileURL(cfg, fullName))
    else Err(PutFailed)
  }

  /** Go's filepath.Ext: the suffix from the last '.' of the final path
      element, or "" when that element has no '.'. */
  function Ext(path: string): (e: string)
    ensures |e| <= |path| && e == path[|path| - |e|..]
    ensures e != "" ==> e[0] == '.' && forall i :: 1 <= i < |e| ==> e[i] != '.' && e[i] != '/'
    ensures e == "" ==> forall i :: 0 <= i < |path| && path[i] == '.' ==>
                          exists j :: i < j < |path| && path[j] == '/'
  {
    if path == [] then ""
    else
      var last := path[|path| - 1];
      if last == '/' then ""
      else if last == '.' then "."
      else
        var e := Ext(path[..|path| - 1]);
        if e == "" then "" else e + [last]
  }

  /** The extension table of UploadImageToOSS; anything else is refused. */
  function ImageContentType(ext: string): (t: Option<string>)
    ensures t.Some? <==> ext in {".jpg", ".jpeg", ".png", ".gif", ".webp", ".bmp", ".svg"}
    ensures t.Some? ==> HasPrefix(t.value, "image/")
    ensures ext in {".jpg", ".jpeg"} ==> t == Some("image/jpeg")
    ensures ext == ".svg" ==> t == Some("image/svg+xml")
  {
    match ext
    case ".jpg" => Some("image/jpeg")
    case ".jpeg" => Some("image/jpeg")
    case ".png" => Some("image/png")
    case ".gif" => Some("image/gif")
    case ".webp" => Some("image/webp")
    case ".bmp" => Some("image/bmp")
    case ".svg" => Some("image/svg+xml")
    case _ => None
  }

  /** The object name both upload helpers give a file: the formatted upload
      time, a dash, and the client's file name. */
  function StampedName(stamp: string, filename: string): string
  {
    stamp + "-" + filename
  }

  /** A multipart file name is a base name; the time stamp is digits. */
  predicate Nameable(file: FileHeader, stamp: string)
  {
    '/' !in file.filename && Decimal.IsDigits(stamp)
  }

  lemma StampedNameIsElement(file: FileHeader, stamp: string)
    requires Nameable(file, stamp)
    ensures IsPathElement(StampedName(stamp, file.filename))
  {
    var name := StampedName(stamp, file.filename);
    assert name[|stamp|] == '-';
    assert '/' !in name by {
      forall i | 0 <= i < |name| ensures name[i] != '/' {
        if i < |stamp| { assert name[i] == stamp[i]; }
        else if i > |stamp| { assert name[i] == file.filename[i - |stamp| - 1]; }
      }
    }
  }

  /** UploadImageToOSS: the size cap comes first, then the extension table,
      then opening the file, then the store under "images/". */
  function UploadImageToOSS(cfg: Config, file: FileHeader, stamp: string, put: PutRequest -> bool): (r: Result<string, UploadError>)
    requires Nameable(file, stamp)
    ensures file.size > MaxFileSize ==> r == Err(TooLarge)
    ensures file.size <= MaxFileSize && ImageContentType(Ext(file.filename)).None? ==>
              r == Err(UnsupportedType(Ext(file.filename)))
    ensures r.Ok? <==>
              && file.size <= MaxFileSize
              && ImageContentType(Ext(file.filename)).Some?
              && file.opens
              && put(PutRequest(cfg.bucket, ImageCategory + "/" + StampedName(stamp, file.filename), file.size,
                                ImageContentType(Ext(file.filename)).value))
    ensures r.Ok? ==> ObjectNameOf(cfg, r.value) == Some(ImageCategory + "/" + StampedName(stamp, file.filename))
  {
    if file.size > MaxFileSize then Err(TooLarge)
    else
      match ImageContentType(Ext(file.filename))
      case None => Err(UnsupportedType(Ext(file.filename)))
      case Some(contentType) =>
        if !file.opens then Err(CannotOpen)
        else
          StampedNameIsElement(file, stamp);
          UploadFileToOSS(cfg, ImageCategory, StampedName(stamp, file.filename), file.size, contentType, put)
  }

  /** UploadHTMLToOSS: only the size cap is checked; the object always goes
      under "html/" with content type text/html, whatever the client said. */
  function UploadHTMLToOSS(cfg: Config, file: FileHeader, stamp: string, put: PutRequest -> bool): (r: Result<string, UploadError>)
    requires Nameable(file, stamp)
    ensures file.size > MaxFileSize ==> r == Err(TooLarge)
    ensures r.Ok? <==>
              && file.size <= MaxFileSize
              && file.opens
              && put(PutRequest(cfg.bucket, HtmlCategory + "/" + StampedName(stamp, file.filename), file.size, HtmlContentType))
    ensures r.Ok? ==> ObjectNameOf(cfg, r.value) == Some(HtmlCategory + "/" + StampedName(stamp, file.filename))
  {
    if file.size > MaxFileSize then Err(TooLarge)
    else if !file.opens then Err(CannotOpen)
    else
      StampedNameIsElement(file, stamp);
      UploadFileToOSS(cfg, HtmlCategory, StampedName(stamp, file.filename), file.size, HtmlContentType, put)
  }

  /** The HTML upload does not look at the declared content type. */
  lemma HtmlUploadIgnoresDeclaredType(cfg: Config, file: FileHeader, contentType: string, stamp: string, put: PutRequest -> bool)
    requires Nameable(file, stamp)
    ensures UploadHTMLToOSS(cfg, file.(contentType := contentType), stamp, put) == UploadHTMLToOSS(cfg, file, stamp, put)
  {
  }

  /** Exactly 3 MiB passes the cap; one byte more does not. */
  lemma SizeCapBoundary(cfg: Config, file: FileHeader, stamp: string, put: PutRequest -> bool)
    requires Nameable(file, stamp)
    ensures file.size == MaxFileSize ==> UploadImageToOSS(cfg, file, stamp, put) != Err(TooLarge)
    ensures file.size == MaxFileSize + 1 ==> UploadImageToOSS(cfg, file, stamp, put) == Err(TooLarge)
  {
  }

  /** The extension of a name is everything from its last dot. */
  lemma {:induction false} ExtOfDottedName(stem: string, tail: string)
    requires '.' !in tail && '/' !in tail
    ensures Ext(stem + "." + tail) == "." + tail
  {
    var name := stem + "." + tail;
    if tail != [] {
      var shorter := tail[..|tail| - 1];
      ExtOfDottedName(stem, shorter);
      assert name[..|name| - 1] == stem + "." + shorter;
      assert "." + shorter + [tail[|tail| - 1]] == "." + tail;
    }
  }

  /** The extension table is case-sensitive: whatever the stem, ".JPG" is
      refused while ".jpg" is accepted. */
  lemma UpperCaseExtensionRefused(stem: string)
    ensures ImageContentType(Ext(stem + ".JPG")) == None
    ensures ImageContentType(Ext(stem + ".jpg")) == Some("image/jpeg")
  {
    ExtOfDottedName(stem, "JPG");
    ExtOfDottedName(stem, "jpg");
    assert stem + ".JPG" == stem + "." + "JPG";
    assert stem + ".jpg" == stem + "." + "jpg";
  }
}
