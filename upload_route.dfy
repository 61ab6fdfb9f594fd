/**
 * `POST /api/upload`: read the `file` form field, reject a missing or invalid
 * file with 400 before anything is written, otherwise write it to storage and
 * answer 200 with the key; anything thrown on the way is a 500.
 */
module UploadRoute {
  import opened Wrappers
  import opened JsStrings
  import Constants
  import opened FileValidator
  import opened S3Upload

  /** What `request.formData()` and `formData.get('file')` produce: a parse failure, or the field. */
  datatype FormData = FormParseFailed | Form(file: Option<File>)

  datatype UploadData = UploadData(fileId: string, fileName: string, fileSize: nat, uploadedAt: string)

  /** HTTP status and JSON body `{ success, message?, data?, error? }`. */
  datatype UploadResponse =
    UploadResponse(status: nat, success: bool, message: Option<string>, data: Option<UploadData>, error: Option<string>)

  /** The reply, and the put request sent to storage, if one was. */
  datatype UploadExchange = UploadExchange(response: UploadResponse, write: Option<PutRequest>)

  /** The messages the handler writes out itself. */
  const NO_FILE_MESSAGE: string := "ファイルが選択されていません"
  const UPLOAD_COMPLETE: string := "アップロードが完了しました"
  const FAILURE_MESSAGE: string := "アップロードに失敗しました"

  /** The handler's own messages are the shared ones. */
  lemma HandlerMessagesMatchConstants()
    ensures NO_FILE_MESSAGE == Constants.NO_FILE_SELECTED
    ensures FAILURE_MESSAGE == Constants.UPLOAD_FAILED
  {
  }

  function Rejection(status: nat, error: string): UploadResponse {
    UploadResponse(status, false, None, None, Some(error))
  }

  /**
   * The handler. `uuid` and `clock` are what the writer draws; `send` is the
   * storage put; `respondedAt` is the ISO text of the second `new Date()`, taken
   * for the reply.
   */
  function PostUpload(form: FormData, uuid: string, clock: Clock, send: PutRequest -> bool, respondedAt: string)
    : (r: UploadExchange)
    requires ValidLocalDate(clock.local) && '/' !in uuid && '.' !in uuid
    ensures form.FormParseFailed? ==> r == UploadExchange(Rejection(500, Constants.UPLOAD_FAILED), None)
    ensures form.Form? && form.file.None? ==>
      r == UploadExchange(Rejection(400, Constants.NO_FILE_SELECTED), None)
    ensures form.Form? && form.file.Some? && !ValidateFile(form.file).valid ==>
      r.response.status == 400 && r.response.error == ValidateFile(form.file).error && r.write.None?
    ensures r.write.Some? <==> form.Form? && ValidateFile(form.file).valid
    ensures r.write.Some? ==>
      && StartsWith(r.write.value.key, KEY_PREFIX)
      && DecodeStorageKey(r.write.value.key).Some?
      && DecodeStorageKey(r.write.value.key).value.uuid == uuid
      && r.write.value.contentType == form.file.value.mimeType
      && r.write.value.metadata == BuildMetadata(form.file.value, clock.iso)
    ensures r.response.status == 200 <==> r.write.Some? && send(r.write.value)
    ensures r.response.status == 200 ==>
      r.response == UploadResponse(200, true, Some(UPLOAD_COMPLETE),
        Some(UploadData(r.write.value.key, form.file.value.name, form.file.value.size, respondedAt)), None)
    ensures r.write.Some? && !send(r.write.value) ==> r.response == Rejection(500, Constants.UPLOAD_FAILED)
    ensures r.response.success <==> r.response.status == 200
    ensures r.response.status in {200, 400, 500}
  {
    match form
    case FormParseFailed => UploadExchange(Rejection(500, FAILURE_MESSAGE), None)
    case Form(None) => UploadExchange(Rejection(400, NO_FILE_MESSAGE), None)
    case Form(Some(file)) =>
      var validation := ValidateFile(Some(file));
      if !validation.valid then
        UploadExchange(Rejection(400, validation.error.value), None)
      else
        var upload := UploadFileToS3(file, uuid, clock, send);
        match upload.key
        case None => UploadExchange(Rejection(500, FAILURE_MESSAGE), Some(upload.request))
        case Some(key) =>
          UploadExchange(UploadResponse(200, true, Some(UPLOAD_COMPLETE),
                                        Some(UploadData(key, file.name, file.size, respondedAt)), None),
                         Some(upload.request))
  }

  /** Oversized and wrongly typed files are refused with their own messages, and nothing is stored. */
  lemma RejectedUploadsWriteNothing(file: File, uuid: string, clock: Clock, send: PutRequest -> bool, at: string)
    requires ValidLocalDate(clock.local) && '/' !in uuid && '.' !in uuid
    ensures file.size > 10485760 ==>
      PostUpload(Form(Some(file)), uuid, clock, send, at) ==
      UploadExchange(Rejection(400, Constants.FILE_TOO_LARGE), None)
    ensures file.size <= 10485760 && file.mimeType !in Constants.ALLOWED_MIME_TYPES ==>
      PostUpload(Form(Some(file)), uuid, clock, send, at) ==
      UploadExchange(Rejection(400, Constants.INVALID_FILE_TYPE), None)
  {
  }
}
