/** The decision rule shared by the upload path (backend/main.py) and the
    Google Drive path (backend/google_drive_auth.py): a score at or above
    0.5 is valid, the percentage is the score times 100, and the message is
    one of two fixed strings keyed on the verdict. */
module Decision {
  import opened Common

  const THRESHOLD: real := 0.5
  const VALID_MESSAGE := "Image is valid"
  const INVALID_MESSAGE := "Image is not valid"

  /** Where a Drive image came from: the `file_id` and `drive_url` keys
      that only the Drive result carries. */
  datatype DriveSource = DriveSource(fileId: string, driveUrl: string)

  /** One validation result dictionary. `drive` is None for an upload and
      holds the two extra keys for a Drive image. */
  datatype Validation = Validation(
    filename: string,
    score: real,
    percentage: real,
    isValid: bool,
    message: string,
    drive: Option<DriveSource>)

  /** The invariant every produced result satisfies. */
  predicate Consistent(v: Validation)
  {
    && v.percentage == v.score * 100.0
    && v.isValid == (v.score >= THRESHOLD)
    && v.message == (if v.isValid then VALID_MESSAGE else INVALID_MESSAGE)
  }

  /** The result dictionary built from a classifier score. */
  function Decide(filename: string, score: real, drive: Option<DriveSource>): (v: Validation)
    ensures Consistent(v)
    ensures v.filename == filename && v.score == score && v.drive == drive
  {
    var isValid := score >= THRESHOLD;
    Validation(filename, score, score * 100.0, isValid,
               if isValid then VALID_MESSAGE else INVALID_MESSAGE, drive)
  }

  /** Consistent results are determined by filename, score and provenance:
      Decide is the only way to build one. */
  lemma ConsistentIsDecided(v: Validation)
    requires Consistent(v)
    ensures v == Decide(v.filename, v.score, v.drive)
  {
  }

  /** The verdict is monotone in the score, and the message alone tells the
      verdict. */
  lemma VerdictMonotone(v: Validation, w: Validation)
    requires Consistent(v) && Consistent(w)
    requires v.score <= w.score
    ensures v.isValid ==> w.isValid
    ensures v.isValid <==> v.message == VALID_MESSAGE
  {
  }
}
