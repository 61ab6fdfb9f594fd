/**
 * Upload validation: an ordered chain of checks on a chosen file (present, size,
 * type, name length) that stops at the first failure, and the choice of unit
 * when a byte count is shown to a person.
 */
module FileValidator {
  import opened Wrappers
  import opened Constants
  import opened JsStrings

  /** A browser `File`: its name, its size in bytes and its MIME type (`type`). */
  datatype File = File(name: string, size: nat, mimeType: string)

  /** `{ valid, error? }`. */
  datatype FileValidationResult = FileValidationResult(valid: bool, error: Option<string>)

  /** Longest accepted file name, in UTF-16 code units; the validator writes it out itself. */
  const MAX_FILE_NAME_LENGTH: nat := 255

  predicate ValidateFileSize(file: File) {
    file.size <= MAX_FILE_SIZE
  }

  predicate ValidateFileType(file: File) {
    file.mimeType in ALLOWED_MIME_TYPES
  }

  predicate ValidateFileName(file: File) {
    |file.name| <= MAX_FILE_NAME_LENGTH
  }

  /**
   * Accepts exactly a present file of at most 10 MB, of one of the four image
   * types, with a name of at most 255 code units. A rejection names the first
   * failing check, in the order: presence, size, type, name length.
   */
  function ValidateFile(file: Option<File>): (r: FileValidationResult)
    ensures r.valid <==> r.error.None?
    ensures r.valid <==>
      file.Some? && file.value.size <= 10485760 && file.value.mimeType in ALLOWED_MIME_TYPES
      && |file.value.name| <= 255
    ensures file.None? ==> r.error == Some(NO_FILE_SELECTED)
    ensures file.Some? && file.value.size > MAX_FILE_SIZE ==> r.error == Some(FILE_TOO_LARGE)
    ensures file.Some? && file.value.size <= MAX_FILE_SIZE && file.value.mimeType !in ALLOWED_MIME_TYPES ==>
      r.error == Some(INVALID_FILE_TYPE)
    ensures file.Some? && ValidateFileSize(file.value) && ValidateFileType(file.value) && !ValidateFileName(file.value) ==>
      r.error == Some(FILE_NAME_TOO_LONG)
  {
    if file.None? then FileValidationResult(false, Some(NO_FILE_SELECTED))
    else if !ValidateFileSize(file.value) then FileValidationResult(false, Some(FILE_TOO_LARGE))
    else if !ValidateFileType(file.value) then FileValidationResult(false, Some(INVALID_FILE_TYPE))
    else if !ValidateFileName(file.value) then FileValidationResult(false, Some(FILE_NAME_TOO_LONG))
    else FileValidationResult(true, None)
  }

  /** Exactly 10 MB is accepted; one byte more is not. */
  lemma SizeBoundary(name: string, mimeType: string)
    ensures ValidateFileSize(File(name, 10485760, mimeType))
    ensures !ValidateFileSize(File(name, 10485761, mimeType))
    ensures ValidateFile(Some(File(name, 10485761, mimeType))).error == Some(FILE_TOO_LARGE)
  {
  }

  /** The type comparison is exact: upper-case spellings of an accepted type are refused. */
  lemma TypeCheckIsCaseSensitive(name: string, size: nat)
    ensures ValidateFileType(File(name, size, "image/jpeg"))
    ensures !ValidateFileType(File(name, size, "image/JPEG"))
  {
    assert "image/JPEG" != "image/jpeg" by { assert "image/JPEG"[6] != "image/jpeg"[6]; }
  }

  /** A name of 255 code units is accepted; one of 256 is not. */
  lemma NameLengthBoundary(name: string, size: nat, mimeType: string)
    ensures |name| == 255 ==> ValidateFileName(File(name, size, mimeType))
    ensures |name| == 256 ==> !ValidateFileName(File(name, size, mimeType))
  {
  }

  /** A file that fails several checks is reported by the earliest of them. */
  lemma EarliestFailureWins(file: File)
    requires !ValidateFileSize(file) && !ValidateFileType(file) && !ValidateFileName(file)
    ensures ValidateFile(Some(file)).error == Some(FILE_TOO_LARGE)
    ensures ValidateFile(Some(file.(size := MAX_FILE_SIZE))).error == Some(INVALID_FILE_TYPE)
  {
  }

  /** The units a size is shown in. */
  datatype SizeUnit = B | KB | MB

  /**
   * What `formatFileSize` prints: a whole byte count, or `bytes / divisor` rounded
   * to one decimal place by `toFixed(1)` (the rounding is not modelled).
   */
  datatype Amount = Whole(n: nat) | OneDecimal(bytes: nat, divisor: nat)

  datatype FormattedSize = FormattedSize(amount: Amount, unit: SizeUnit)

  function UnitLabel(u: SizeUnit): string {
    match u
    case B => "B"
    case KB => "KB"
    case MB => "MB"
  }

  /**
   * Bytes below 1024 are shown as they are, in B; below 1024 * 1024 as KB;
   * anything larger as MB. The decimal amounts are the byte count over the unit's size.
   */
  function FormatFileSize(bytes: nat): (r: FormattedSize)
    ensures r.unit == B <==> bytes < 1024
    ensures r.unit == KB <==> 1024 <= bytes < 1048576
    ensures r.unit == MB <==> 1048576 <= bytes
    ensures r.unit == B ==> r.amount == Whole(bytes)
    ensures r.unit == KB ==> r.amount == OneDecimal(bytes, 1024)
    ensures r.unit == MB ==> r.amount == OneDecimal(bytes, 1048576)
  {
    if bytes < 1024 then FormattedSize(Whole(bytes), B)
    else if bytes < 1024 * 1024 then FormattedSize(OneDecimal(bytes, 1024), KB)
    else FormattedSize(OneDecimal(bytes, 1024 * 1024), MB)
  }

  /** The text of a size shown in bytes: the integer unchanged, a space, `B`. */
  function BytesText(bytes: nat): (s: string)
    requires bytes < 1024
    ensures |s| >= 3 && s[|s| - 2..] == " B" && s[..|s| - 2] == NatToString(bytes)
    ensures IsDigits(s[..|s| - 2])
    ensures FormatFileSize(bytes).amount == Whole(ParseNat(s[..|s| - 2]))
  {
    NatToStringRoundTrip(bytes);
    var s := NatToString(bytes) + " " + UnitLabel(FormatFileSize(bytes).unit);
    assert s[..|s| - 2] == NatToString(bytes);
    s
  }

  /** The largest accepted upload is shown in MB, and anything under 1 KB in bytes. */
  lemma UnitChoiceExamples()
    ensures FormatFileSize(MAX_FILE_SIZE).unit == MB
    ensures FormatFileSize(1023).unit == B && FormatFileSize(1024).unit == KB
    ensures FormatFileSize(1048575).unit == KB && FormatFileSize(1048576).unit == MB
  {
  }
}
