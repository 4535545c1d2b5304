/** backend/google_drive_auth.py: turning a Drive share URL into a file ID,
    the guards around fetching that file, and the result dictionary built
    for a Drive image. The Drive API itself (file metadata and media
    download) and the OAuth2 flow are foreign and enter as values of type
    DriveService. */
module GoogleDrive {
  import opened Common
  import opened Text
  import opened Decision

  const DRIVE_HOST := "drive.google.com"
  const DOCS_HOST := "docs.google.com"
  const FILE_MARKER := "/file/d/"
  const OPEN_MARKER := "open"
  const DOCS_MARKER := "/d/"
  const ID_KEY := "id"
  const IMAGE_MIME_PREFIX := "image/"

  const ERROR_PREFIX := "Error processing Google Drive image: "
  const AUTH_FAILED := "Failed to authenticate with Google Drive"
  const DOWNLOAD_FAILED := "Failed to download image from Google Drive"

  /** What `urlparse` and `parse_qs` make of a URL: the network location,
      the path, and the query as a map from key to the list of its values. */
  datatype UrlParts = UrlParts(netloc: string, path: string, query: map<string, seq<string>>)

  /** A Drive URL as the caller sent it, with its parsed form; `parsed` is
      None when `urlparse` raises on it. */
  datatype DriveLink = DriveLink(text: string, parsed: Option<UrlParts>)

  /** `path.split(marker)[1].split("/")[0]`, as the source writes it. */
  function IdAfter(path: string, marker: string): (id: string)
    requires |marker| > 0 && marker[0] == '/'
    requires Contains(path, marker)
    ensures id == UpTo(After(path, marker), '/')
    ensures '/' !in id
  {
    SegmentAfter(path, marker);
    Split(Split(path, marker)[1], "/")[0]
  }

  /** `extract_file_id_from_url`. The branches are tried in a fixed order:
      the host must contain "drive.google.com"; then "/file/d/" in the
      path wins over "open" in the path, which wins over the docs host. */
  function ExtractFileId(link: DriveLink): (r: Option<string>)
    ensures r.Some? ==> link.parsed.Some? && Contains(link.parsed.value.netloc, DRIVE_HOST)
    ensures link.parsed.Some? && Contains(link.parsed.value.netloc, DRIVE_HOST)
              && Contains(link.parsed.value.path, FILE_MARKER) ==>
              r == Some(UpTo(After(link.parsed.value.path, FILE_MARKER), '/'))
    ensures link.parsed.Some? && Contains(link.parsed.value.netloc, DRIVE_HOST)
              && !Contains(link.parsed.value.path, FILE_MARKER)
              && Contains(link.parsed.value.path, OPEN_MARKER) ==>
              var q := link.parsed.value.query;
              r == if ID_KEY in q && |q[ID_KEY]| > 0 then Some(q[ID_KEY][0]) else None
    ensures link.parsed.Some? && Contains(link.parsed.value.netloc, DRIVE_HOST)
              && !Contains(link.parsed.value.path, FILE_MARKER)
              && !Contains(link.parsed.value.path, OPEN_MARKER) ==>
              var u := link.parsed.value;
              r == if StartsWith(u.netloc, DOCS_HOST) && Contains(u.path, DOCS_MARKER)
                   then Some(UpTo(After(u.path, DOCS_MARKER), '/'))
                   else None
  {
    match link.parsed
    case None => None
    case Some(u) =>
      if !Contains(u.netloc, DRIVE_HOST) then None
      else if Contains(u.path, FILE_MARKER) then Some(IdAfter(u.path, FILE_MARKER))
      else if Contains(u.path, OPEN_MARKER) then
        // `query_params["id"][0]` raising IndexError is caught and gives None
        if ID_KEY in u.query && |u.query[ID_KEY]| > 0 then Some(u.query[ID_KEY][0]) else None
      else if StartsWith(u.netloc, DOCS_HOST) then
        if Contains(u.path, DOCS_MARKER) then Some(IdAfter(u.path, DOCS_MARKER)) else None
      else None
  }

  /** An ID taken from a "/file/d/" or a docs path never contains '/';
      only the `id` query value can. */
  lemma PathIdHasNoSlash(link: DriveLink)
    requires ExtractFileId(link).Some?
    requires Contains(link.parsed.value.path, FILE_MARKER) || !Contains(link.parsed.value.path, OPEN_MARKER)
    ensures '/' !in ExtractFileId(link).value
  {
  }

  /** The docs test sits inside the drive host test, so a plain
      docs.google.com URL never yields an ID, whatever its path. */
  lemma DocsHostAloneHasNoId(text: string, path: string, query: map<string, seq<string>>)
    ensures ExtractFileId(DriveLink(text, Some(UrlParts(DOCS_HOST, path, query)))) == None
  {
    assert !Contains(DOCS_HOST, DRIVE_HOST);
  }

  /** The docs branch is reachable, but only by a host that starts with
      "docs.google.com" and also contains "drive.google.com". */
  lemma DocsBranchReachable(text: string, query: map<string, seq<string>>)
    ensures ExtractFileId(DriveLink(text, Some(UrlParts(DOCS_HOST + "." + DRIVE_HOST, "/d/x", query)))) == Some("x")
  {
    var netloc := DOCS_HOST + "." + DRIVE_HOST;
    assert netloc[16..16 + |DRIVE_HOST|] == DRIVE_HOST;
    ContainsAt(netloc, DRIVE_HOST, 16);
    assert StartsWith(netloc, DOCS_HOST) by {
      assert netloc[..|DOCS_HOST|] == DOCS_HOST;
    }
    assert !Contains("/d/x", FILE_MARKER);
    assert !Contains("/d/x", OPEN_MARKER) by {
      assert !OccursAt("/d/x", OPEN_MARKER, 0) by {
        assert "/d/x"[0..4][0] != OPEN_MARKER[0];
      }
    }
    assert OccursAt("/d/x", DOCS_MARKER, 0) by {
      assert "/d/x"[0..3] == DOCS_MARKER;
    }
    assert Find("/d/x", DOCS_MARKER) == Some(0);
    assert After("/d/x", DOCS_MARKER) == "x";
    assert UpTo("x", '/') == "x";
  }

  /** The file metadata dictionary the Drive API returns. */
  type FileInfo = map<string, string>

  /** The Drive v3 service as the backend uses it: `files().get` gives the
      metadata or None (any HttpError or other error is caught into None),
      `files().get_media` with its chunked download gives the bytes or None. */
  datatype DriveService = DriveService(
    fileInfo: string -> Option<FileInfo>,
    media: string -> Option<Bytes>)

  /** Python truthiness of an optional dictionary: None and {} are false. */
  predicate Truthy(info: Option<FileInfo>)
  {
    info.Some? && info.value != map[]
  }

  /** `file_info.get("mimeType", "")`. */
  function MimeType(info: FileInfo): (m: string)
    ensures "mimeType" in info ==> m == info["mimeType"]
    ensures "mimeType" !in info ==> m == "" && !StartsWith(m, IMAGE_MIME_PREFIX)
  {
    if "mimeType" in info then info["mimeType"] else ""
  }

  /** The filename of a Drive result: the file's "name" when the metadata
      is non-empty, "drive_image_<id>" when it has no "name", and
      "drive_image" when there is no metadata at all. */
  function DriveFilename(info: Option<FileInfo>, fileId: string): (name: string)
    ensures Truthy(info) && "name" in info.value ==> name == info.value["name"]
    ensures Truthy(info) && "name" !in info.value ==> name == "drive_image_" + fileId
    ensures !Truthy(info) ==> name == "drive_image"
    ensures (Truthy(info) && "name" in info.value) || StartsWith(name, "drive_image")
  {
    if Truthy(info) then
      if "name" in info.value then info.value["name"] else "drive_image_" + fileId
    else "drive_image"
  }

  /** `GoogleDriveAuth`: holds the Drive service once authentication
      has built it. */
  class GoogleDriveAuth {
    var service: Option<DriveService>

    /** `__init__`: no credentials and no service yet. */
    constructor ()
      ensures service.None?
    {
      service := None;
    }

    /** `authenticate`. The token file, the OAuth2 flow and the refresh are
        foreign: `outcome` is the service they build, or None when any of
        them raised (the exception is caught and False returned). */
    method Authenticate(outcome: Option<DriveService>) returns (ok: bool)
      modifies this
      ensures ok <==> outcome.Some?
      ensures service == if ok then outcome else old(service)
    {
      ok := outcome.Some?;
      if ok {
        service := outcome;
      }
    }

    /** `get_file_info`: without a service the RuntimeError is caught into None. */
    function GetFileInfo(fileId: string): (r: Option<FileInfo>)
      reads this
      ensures service.None? ==> r.None?
      ensures service.Some? ==> r == service.value.fileInfo(fileId)
    {
      match service
      case None => None
      case Some(s) => s.fileInfo(fileId)
    }

    /** `download_file`: the media is fetched only when there is a service,
        the metadata is non-empty and its MIME type starts with "image/";
        otherwise (the ValueError included) the result is None. */
    function DownloadFile(fileId: string): (r: Option<Bytes>)
      reads this
      ensures r.Some? ==> service.Some? && Truthy(GetFileInfo(fileId))
                          && StartsWith(MimeType(GetFileInfo(fileId).value), IMAGE_MIME_PREFIX)
                          && r == service.value.media(fileId)
      ensures service.Some? && Truthy(GetFileInfo(fileId))
                && StartsWith(MimeType(GetFileInfo(fileId).value), IMAGE_MIME_PREFIX) ==>
                r == service.value.media(fileId)
    {
      match service
      case None => None
      case Some(s) =>
        var info := GetFileInfo(fileId);
        if !Truthy(info) then None
        else if !StartsWith(MimeType(info.value), IMAGE_MIME_PREFIX) then None
        else s.media(fileId)
    }

    /** `download_image_from_url`: no ID (None or the empty string), no
        content (None or empty bytes) or an undecodable file all give None.
        `decode` stands for PIL's `Image.open` and the RGB conversion. */
    function DownloadImageFromUrl(link: DriveLink, decode: Bytes -> Result<Image, Exception>): (r: Option<Image>)
      reads this
      ensures ExtractFileId(link) == None || ExtractFileId(link) == Some("") ==> r.None?
      ensures r.Some? ==>
                && ExtractFileId(link).Some? && ExtractFileId(link).value != ""
                && var content := DownloadFile(ExtractFileId(link).value);
                && content.Some? && content.value != []
                && decode(content.value) == Ok(r.value)
      ensures ExtractFileId(link).Some? && ExtractFileId(link).value != ""
                && DownloadFile(ExtractFileId(link).value).Some?
                && DownloadFile(ExtractFileId(link).value).value != []
                && decode(DownloadFile(ExtractFileId(link).value).value).Ok? ==>
                r.Some?
    {
      match ExtractFileId(link)
      case None => None
      case Some(fileId) =>
        if fileId == "" then None
        else match DownloadFile(fileId)
          case None => None
          case Some(content) =>
            if content == [] then None
            else match decode(content)
              case Err(_) => None
              case Ok(image) => Some(image)
    }

    /** The part of `process_google_drive_image` after authentication:
        download, name the file, score it and build the result. Every
        failure becomes a 400 whose detail starts with the fixed prefix. */
    function ValidateDownloaded(
      link: DriveLink,
      decode: Bytes -> Result<Image, Exception>,
      extract: Image -> Result<Features, Exception>,
      predict: Features -> Result<real, Exception>): (r: Result<Validation, HttpError>)
      reads this
      ensures r.Err? ==> r.error.status == 400 && StartsWith(r.error.detail, ERROR_PREFIX)
      ensures DownloadImageFromUrl(link, decode).None? ==>
                r == Err(HttpError(400, ERROR_PREFIX + DOWNLOAD_FAILED))
      ensures r.Ok? ==> Consistent(r.value)
      ensures r.Ok? ==>
                && ExtractFileId(link).Some? && ExtractFileId(link).value != ""
                && var fileId := ExtractFileId(link).value;
                && r.value.drive == Some(DriveSource(fileId, link.text))
                && r.value.filename == DriveFilename(GetFileInfo(fileId), fileId)
      ensures r.Ok? ==>
                && DownloadImageFromUrl(link, decode).Some?
                && var features := extract(DownloadImageFromUrl(link, decode).value);
                && features.Ok? && predict(features.value) == Ok(r.value.score)
      ensures DownloadImageFromUrl(link, decode).Some? ==>
                var fileId := ExtractFileId(link).value;
                match extract(DownloadImageFromUrl(link, decode).value)
                case Err(e) => r == Err(HttpError(400, ERROR_PREFIX + e.message))
                case Ok(f) =>
                  match predict(f)
                  case Err(e) => r == Err(HttpError(400, ERROR_PREFIX + e.message))
                  case Ok(score) =>
                    r == Ok(Decide(DriveFilename(GetFileInfo(fileId), fileId), score,
                                   Some(DriveSource(fileId, link.text))))
    {
      match DownloadImageFromUrl(link, decode)
      case None => Err(HttpError(400, ERROR_PREFIX + DOWNLOAD_FAILED))
      case Some(image) =>
        var fileId := ExtractFileId(link).value;
        var fileInfo := if fileId != "" then GetFileInfo(fileId) else None;
        var filename := DriveFilename(fileInfo, fileId);
        match extract(image)
        case Err(e) => Err(HttpError(400, ERROR_PREFIX + e.message))
        case Ok(features) =>
          match predict(features)
          case Err(e) => Err(HttpError(400, ERROR_PREFIX + e.message))
          case Ok(score) => Ok(Decide(filename, score, Some(DriveSource(fileId, link.text))))
    }
  }

  /** Metadata without a "mimeType" key falls back to "", which is not an
      image type, so nothing is downloaded. */
  lemma MissingMimeTypeIsRefused(auth: GoogleDriveAuth, fileId: string)
    requires auth.GetFileInfo(fileId).Some? && "mimeType" !in auth.GetFileInfo(fileId).value
    ensures auth.DownloadFile(fileId).None?
  {
  }

  /** When nothing, or a '/', follows the first "/file/d/" of the path, the
      ID is the empty string, and `download_image_from_url` refuses it
      before any download. */
  lemma EmptyIdIsRefused(auth: GoogleDriveAuth, link: DriveLink,
                         decode: Bytes -> Result<Image, Exception>)
    requires link.parsed.Some? && Contains(link.parsed.value.netloc, DRIVE_HOST)
    requires Contains(link.parsed.value.path, FILE_MARKER)
    requires var rest := After(link.parsed.value.path, FILE_MARKER);
             rest == [] || rest[0] == '/'
    ensures ExtractFileId(link) == Some("")
    ensures auth.DownloadImageFromUrl(link, decode).None?
  {
  }

  /** The path "/file/d/" itself is such a path. */
  lemma TrailingMarkerGivesEmptyId(text: string, query: map<string, seq<string>>)
    ensures ExtractFileId(DriveLink(text, Some(UrlParts(DRIVE_HOST, FILE_MARKER, query)))) == Some("")
  {
    assert DRIVE_HOST[..|DRIVE_HOST|] == DRIVE_HOST;
    assert FILE_MARKER[..|FILE_MARKER|] == FILE_MARKER;
  }

  /** `process_google_drive_image` on the global `drive_auth`: authenticate
      first when there is no service yet (`oauth` is what authentication
      would build), then validate. */
  method ProcessGoogleDriveImage(
    auth: GoogleDriveAuth,
    link: DriveLink,
    oauth: Option<DriveService>,
    decode: Bytes -> Result<Image, Exception>,
    extract: Image -> Result<Features, Exception>,
    predict: Features -> Result<real, Exception>) returns (r: Result<Validation, HttpError>)
    modifies auth
    ensures auth.service == if old(auth.service).Some? then old(auth.service) else oauth
    ensures auth.service.None? ==> r == Err(HttpError(400, ERROR_PREFIX + AUTH_FAILED))
    ensures auth.service.Some? ==> r == auth.ValidateDownloaded(link, decode, extract, predict)
  {
    if auth.service.None? {
      var ok := auth.Authenticate(oauth);
      if !ok {
        return Err(HttpError(400, ERROR_PREFIX + AUTH_FAILED));
      }
    }
    r := auth.ValidateDownloaded(link, decode, extract, predict);
  }
}
