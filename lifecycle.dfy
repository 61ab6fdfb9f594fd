/**
 * What an upload looks like when the gallery lists it again: the writer's key,
 * content type and metadata, read back by the listing, give an item that names
 * the uploaded file, its type and its upload instant.
 */
module Lifecycle {
  import opened Wrappers
  import opened JsStrings
  import opened FileValidator
  import opened S3Upload
  import opened FileListing
  import Constants

  /** The storage answers `head` with exactly what the put stored. */
  predicate StoresFaithfully(request: PutRequest, svc: Services) {
    svc.head(request.key) == Some(HeadResult(Some(request.metadata), Some(request.contentType)))
  }

  /**
   * An uploaded object lies under the prefix the listing enumerates. One that the
   * listing does enumerate, that the storage reports back faithfully and that can
   * be signed, is listed as an item whose id and key are the upload's key, whose
   * name is the original file name (or `<uuid>.<ext>` for an empty name), whose
   * type is the file's type (or the octet-stream default for an empty one), whose
   * instant is the parsed upload date, and whose preview link is the one-hour link.
   */
  lemma UploadedFileIsListed(file: File, uuid: string, clock: Clock, send: PutRequest -> bool,
                             objs: seq<ListedObject>, i: nat, svc: Services)
    requires ValidLocalDate(clock.local) && '/' !in uuid && '.' !in uuid
    requires UploadFileToS3(file, uuid, clock, send).key.Some?
    requires i < |objs| && objs[i].key == UploadFileToS3(file, uuid, clock, send).key
    requires StoresFaithfully(UploadFileToS3(file, uuid, clock, send).request, svc)
    requires svc.sign(UploadFileToS3(file, uuid, clock, send).request.key, PREVIEW_SECONDS).Some?
    ensures BuildItem(objs[i], svc).Some?
    ensures var item := BuildItem(objs[i], svc).value;
      var key := UploadFileToS3(file, uuid, clock, send).request.key;
      && StartsWith(key, LIST_PREFIX)
      && item in ListFiles(Some(ListResult(Some(objs))), svc).value
      && item.id == key && item.s3Key == key
      && item.previewUrl == svc.sign(key, PREVIEW_SECONDS).value
      && item.fileName == (if file.name != "" then file.name else uuid + "." + ExtensionFor(file.mimeType))
      && item.mimeType == (if file.mimeType != "" then file.mimeType else DEFAULT_MIME_TYPE)
      && (clock.iso != "" ==> item.uploadedAt == svc.parseDate(clock.iso))
  {
    var up := UploadFileToS3(file, uuid, clock, send);
    var key := up.request.key;
    StorageKeyRoundTrip(uuid, clock.local, ExtensionFor(file.mimeType));
    assert LIST_PREFIX == KEY_PREFIX;
    assert key != "" by { assert |key| >= |KEY_PREFIX|; }
    assert BuildItem(objs[i], svc).Some?;
    ItemFallbacks(objs[i], svc);
    ListedExactlyTheKeptObjects(objs, svc, BuildItem(objs[i], svc).value);
  }

  /** A file the validator accepts keeps its own type and an extension from the table once listed. */
  lemma AcceptedUploadKeepsItsType(file: File, uuid: string, clock: Clock, send: PutRequest -> bool,
                                   objs: seq<ListedObject>, i: nat, svc: Services)
    requires ValidateFile(Some(file)).valid
    requires ValidLocalDate(clock.local) && '/' !in uuid && '.' !in uuid
    requires UploadFileToS3(file, uuid, clock, send).key.Some?
    requires i < |objs| && objs[i].key == UploadFileToS3(file, uuid, clock, send).key
    requires StoresFaithfully(UploadFileToS3(file, uuid, clock, send).request, svc)
    requires svc.sign(UploadFileToS3(file, uuid, clock, send).request.key, PREVIEW_SECONDS).Some?
    ensures BuildItem(objs[i], svc).Some? && BuildItem(objs[i], svc).value.mimeType == file.mimeType
    ensures DecodeStorageKey(UploadFileToS3(file, uuid, clock, send).request.key).value.ext != "bin"
  {
    UploadedFileIsListed(file, uuid, clock, send, objs, i, svc);
    AcceptedTypesKeepTheirExtension(file, uuid, clock, send);
    EmptyTypeIsNotAllowed();
  }

  lemma EmptyTypeIsNotAllowed()
    ensures "" !in Constants.ALLOWED_MIME_TYPES
  {
  }
}
