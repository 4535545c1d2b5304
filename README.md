# VEXO image validation backend — Dafny model

VEXO is an HTTP service that scores images with a pretrained classifier.
The images arrive as uploads, in batches or as Google Drive links. This
project models the deterministic logic around the classifier:

- how a Drive share URL becomes a file ID (`extract_file_id_from_url`);
- the guards around fetching a Drive file (a service must exist, the MIME
  type must start with `image/`, and the ID and the content must be non-empty);
- the result dictionary and the decision rule: valid iff `score >= 0.5`,
  `percentage = score * 100`, and one of two fixed messages;
- the filename fallback for Drive images;
- the two process-wide models, the health report, and the
  "model not initialized" guards;
- the batch endpoint, which caps the batch size, appends one entry per
  file in input order, and keeps per-file errors in place.

Modules:

- `Common` (common.dfy): Option, Result, the Python exceptions, and
  FastAPI's `HTTPException` as `HttpError`.
- `Text` (text.dfy): Python's substring test, `find`, `startswith` and
  `split` on `seq<char>`, with lemmas about them.
- `Decision` (decision.dfy): the threshold, the result record and its
  invariant `Consistent`.
- `GoogleDrive` (drive.dfy): backend/google_drive_auth.py. The class
  `GoogleDriveAuth` holds the Drive service that authentication assigns.
- `VexoApi` (api.dfy): backend/main.py. The class `ModelRegistry` holds
  the two global models that `initialize_models` assigns.

Foreign calls are parameters. The Drive API is a `DriveService` value
holding two functions: file metadata and media download. PIL decoding is
a `Decoder` function. Each Keras model is the function it computes. The
OAuth2 outcome and the model-loading outcomes are method arguments. A URL
enters already parsed, as `urlparse`/`parse_qs` would return it. Scores
are mathematical `real`s.

The `docs.google.com` branch of `extract_file_id_from_url` is modelled as
written. It sits inside the `drive.google.com` host test, so a plain docs
URL yields no ID (`DocsHostAloneHasNoId`). Only a host that starts with
`docs.google.com` and also contains `drive.google.com` reaches that branch
(`DocsBranchReachable`). The batch cap follows the code (`> 100`), not the
comment or the error detail (which both say 10).

## Model

| member | source | states |
|---|---|---|
| `Text.Find` | backend/google_drive_auth.py:115-129 | the first index at which the text occurs, or None exactly when it occurs nowhere |
| `Text.Contains` | backend/google_drive_auth.py:115-129 | Python `t in s`: true exactly when `t` occurs in `s` at some index |
| `Text.StartsWith` | backend/google_drive_auth.py:128 | Python `startswith` (also at google_drive_auth.py:197 and main.py:179,199): true exactly when the first occurrence is at index 0 |
| `Text.UpTo` | backend/google_drive_auth.py:118 | the longest prefix without the given character: a prefix, free of it, and followed by it unless it is the whole text |
| `Text.UpToUnique` | backend/google_drive_auth.py:118 | those three properties determine UpTo's result, so its contract is a complete specification |
| `Text.Split` | backend/google_drive_auth.py:118 | Python `split` on a non-empty separator: there is a second piece exactly when the separator occurs, and the first piece is the text before its first occurrence (or all of the text) |
| `Text.SplitJoin` | backend/google_drive_auth.py:118 | joining the pieces of a split with the separator gives the original text back |
| `Text.SplitPiecesAvoidSep` | backend/google_drive_auth.py:118 | no piece of a split contains the separator |
| `Text.SegmentAfter` | backend/google_drive_auth.py:118 | for a separator starting with "/", `s.split(sep)[1].split("/")[0]` is the text after the first separator up to the next "/" or the end |
| `GoogleDrive.IdAfter` | backend/google_drive_auth.py:130 | the as-written double split gives the text after the marker up to the next "/", and that text contains no "/" |
| `GoogleDrive.ExtractFileId` | backend/google_drive_auth.py:100-137 | the result is fixed on every input: no ID unless the URL parses and the host contains "drive.google.com"; with "/file/d/" in the path the ID is the text after its first occurrence up to the next "/", whatever else the path holds; otherwise with "open" in the path it is the first `id` query value, or None; otherwise it is the text after the first "/d/" up to the next "/" when the host starts with "docs.google.com" and the path contains "/d/", and None in every other case |
| `GoogleDrive.PathIdHasNoSlash` | backend/google_drive_auth.py:116-131 | an ID taken from the path (the "/file/d/" or docs branch) contains no "/" |
| `GoogleDrive.DocsHostAloneHasNoId` | backend/google_drive_auth.py:115-133 | host "docs.google.com" yields None for every path and query, because the docs test is nested inside the drive host test |
| `GoogleDrive.DocsBranchReachable` | backend/google_drive_auth.py:127-131 | the docs branch does fire for host "docs.google.com.drive.google.com" with path "/d/x", giving "x" |
| `GoogleDrive.EmptyIdIsRefused` | backend/google_drive_auth.py:238-240 | on a drive host, when nothing or a "/" follows the first "/file/d/" of the path, the ID is the empty string and the download gives None |
| `GoogleDrive.TrailingMarkerGivesEmptyId` | backend/google_drive_auth.py:116-118 | the path "/file/d/" on host "drive.google.com" yields the empty ID |
| `GoogleDrive.DriveFilename` | backend/google_drive_auth.py:302-307 | with non-empty file info the filename is its "name", or "drive_image_" + ID; with no or empty info it is "drive_image"; without a Drive name it always starts with "drive_image" |
| `GoogleDrive.MimeType` | backend/google_drive_auth.py:196 | `file_info.get("mimeType", "")`: the stored MIME type, or "" (which is not an image type) when the key is absent |
| `GoogleDrive.MissingMimeTypeIsRefused` | backend/google_drive_auth.py:196-198 | metadata without a MIME type is refused and nothing is downloaded |
| `GoogleDrive.GoogleDriveAuth.constructor` | backend/google_drive_auth.py:30-45 | a new instance has no service |
| `GoogleDrive.GoogleDriveAuth.Authenticate` | backend/google_drive_auth.py:47-98 | returns True exactly when authentication builds a service; the service is replaced only then |
| `GoogleDrive.GoogleDriveAuth.GetFileInfo` | backend/google_drive_auth.py:139-174 | without a service the metadata is None; otherwise it is what the Drive API answers |
| `GoogleDrive.GoogleDriveAuth.DownloadFile` | backend/google_drive_auth.py:176-224 | bytes come back only with a service, non-empty metadata and a MIME type starting with "image/", and then they are the downloaded media; any other MIME type gives None |
| `GoogleDrive.GoogleDriveAuth.DownloadImageFromUrl` | backend/google_drive_auth.py:226-258 | None when there is no ID or the ID is empty; an image exactly when the ID and the downloaded bytes are non-empty and the bytes decode, and then it is the decoded image |
| `GoogleDrive.GoogleDriveAuth.ValidateDownloaded` | backend/google_drive_auth.py:295-331 | a failed download gives 400 "…Failed to download image…"; after a download an extractor or classifier error gives 400 with the prefix and that error's message, and otherwise the result is Decide of the classifier's score, named by DriveFilename of the file's metadata and carrying the non-empty file ID and the URL text; every error is a 400 with the fixed prefix |
| `GoogleDrive.ProcessGoogleDriveImage` | backend/google_drive_auth.py:275-331 | authenticates only when there is no service; if there is still none the answer is 400 "…Failed to authenticate…", otherwise it is ValidateDownloaded |
| `Decision.Decide` | backend/main.py:128-137 | the result has the given filename, score and provenance and is Consistent: `is_valid == (score >= 0.5)`, `percentage == score * 100`, message "Image is valid" exactly when valid, else "Image is not valid" |
| `Decision.ConsistentIsDecided` | backend/google_drive_auth.py:315-325 | any consistent result is the one Decide builds from its filename, score and provenance |
| `Decision.VerdictMonotone` | backend/main.py:129 | a higher score never turns a valid verdict invalid, and the message alone tells the verdict |
| `VexoApi.LoadAndPreprocessImage` | backend/main.py:57-74 | fails with ValueError exactly when neither input is given; the array takes precedence over the PIL image |
| `VexoApi.ImageIndices` | backend/main.py:198-206 | the positions of the image files, each once and in increasing order |
| `VexoApi.ModelRegistry.constructor` | backend/main.py:27-29 | both models start absent |
| `VexoApi.ModelRegistry.InitializeModels` | backend/main.py:33-54 | Xception is assigned first and survives a later failure; a missing model file gives FileNotFoundError with the source's message; the first failure is reported; success leaves both models loaded |
| `VexoApi.ModelRegistry.HealthCheck` | backend/main.py:164-171 | `models_loaded` is true exactly when both models are present, and the status is "healthy" exactly then, else "unhealthy" |
| `VexoApi.ModelRegistry.ExtractFeatures` | backend/main.py:77-92 | a RuntimeError without Xception, whatever the arguments; then a ValueError when neither input is given; the PIL image takes precedence over the array |
| `VexoApi.ModelRegistry.PredictImageValidity` | backend/main.py:95-104 | a RuntimeError without the classifier; otherwise the classifier's answer |
| `VexoApi.ModelRegistry.ProcessUploadedImage` | backend/main.py:107-140 | a decode, extraction or prediction error gives 400 with the prefix "Error processing image: " and that error's message; when all three succeed the result is Decide of the upload's filename and the classifier's score, with no Drive fields; with a model missing it always fails |
| `VexoApi.ModelRegistry.ValidateSingleImage` | backend/main.py:174-183 | a content type not starting with "image/" is refused with 400 "File must be an image" before processing |
| `VexoApi.ModelRegistry.BatchEntry` | backend/main.py:198-209 | the entry keeps the file's name; a non-image gives the error "File must be an image" without processing; otherwise the processing result or its error detail |
| `VexoApi.ModelRegistry.BatchEntries` | backend/main.py:196-211 | one entry per file, the k-th being the BatchEntry of the k-th file |
| `VexoApi.ModelRegistry.ValidateMultipleImages` | backend/main.py:186-211 | refused with 400 "Maximum 10 files allowed per request" exactly when there are more than 100 files, and then nothing is processed; otherwise the entries are BatchEntries of all files (one per file, in input order, errors in place), and processing is called for exactly the image files, in increasing order |
| `VexoApi.BatchKeepsFilenames` | backend/main.py:196-211 | entry i carries the filename of file i |
| `VexoApi.UnhealthyRefusesAll` | backend/main.py:77-104 | with either model missing every single upload is refused, and every batch entry is an error entry |

## Left out

- OAuth2 flow, token pickle and credential refresh (`authenticate`): file and network I/O; only whether they build a service is modelled, as the argument of `Authenticate`.
- Drive API calls and the chunked `MediaIoBaseDownload` loop: network I/O. Metadata and media are functions from file ID to an optional value, so the two metadata calls made for one image always agree.
- Printed logging and the HTTP status codes Drive reports (404, 403): they are all caught into None.
- `urlparse` and `parse_qs`: library calls. Their output is the input here; `parsed = None` stands for `urlparse` raising.
- PIL decoding and RGB conversion, the cv2 colour swap and resize, `preprocess_input`, `np.squeeze`, and Keras `predict`: foreign image code and float numerics. A tensor records only which input it was built from.
- LoadAndPreprocessImage: fails only when neither input is given; a failure of `cv2.resize`, `cvtColor` or `preprocess_input` is folded into the feature extractor's error, because the pixel arithmetic is foreign.
- Floating point: `score * 100` and `score >= 0.5` are exact on reals, with no rounding.
- FastAPI routing, async handlers, `UploadFile.read`, CORS, and uvicorn startup. A missing `content_type` (None) is not modelled; content types are strings.
- `initialize_google_drive_auth` and the global `drive_auth` instance: the Drive instance is an explicit argument of `ProcessGoogleDriveImage`.
- backend/fix_google_auth.py is not part of this model: it is a diagnostic command-line script made of file I/O and printing.
