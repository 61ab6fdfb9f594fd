/**
 * `GET /api/files`: the whole listing in one page, or a generic 500 when
 * `listFiles` rejects.
 */
module FilesRoute {
  import opened Wrappers
  import opened FileListing

  datatype FilesPage = FilesPage(files: seq<FileItem>, totalCount: nat, hasMore: bool)

  /** HTTP status and JSON body `{ success, data?, error? }`. */
  datatype FilesResponse = FilesResponse(status: nat, success: bool, data: Option<FilesPage>, error: Option<string>)

  const LIST_FAILED: string := "ファイル一覧の取得に失敗しました"

  /**
   * `listing` is what `listFiles()` settled with (None: it rejected). Success
   * carries the items exactly as listed, their count, and `hasMore` false.
   */
  function GetFiles(listing: Option<seq<FileItem>>): (r: FilesResponse)
    ensures r.success <==> listing.Some?
    ensures r.success ==> r.status == 200 && r.error.None? && r.data.Some?
    ensures r.success ==> r.data.value.files == listing.value
    ensures r.success ==> r.data.value.totalCount == |r.data.value.files|
    ensures r.data.Some? ==> !r.data.value.hasMore
    ensures !r.success ==> r == FilesResponse(500, false, None, Some(LIST_FAILED))
  {
    match listing
    case None => FilesResponse(500, false, None, Some(LIST_FAILED))
    case Some(files) => FilesResponse(200, true, Some(FilesPage(files, |files|, false)), None)
  }

  /** With nothing stored, or no `Contents`, the page is empty: no files, a count of 0, nothing more. */
  lemma EmptyBucketGivesEmptyPage(svc: Services)
    ensures GetFiles(ListFiles(Some(ListResult(None)), svc)) ==
      FilesResponse(200, true, Some(FilesPage([], 0, false)), None)
    ensures GetFiles(ListFiles(Some(ListResult(Some([]))), svc)) ==
      FilesResponse(200, true, Some(FilesPage([], 0, false)), None)
  {
  }

  /** A failed listing call surfaces as the generic 500. */
  lemma ListingFailureIsServerError(svc: Services)
    ensures GetFiles(ListFiles(None, svc)).status == 500
    ensures GetFiles(ListFiles(None, svc)).error == Some(LIST_FAILED)
  {
  }
}
