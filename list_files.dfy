/**
 * `listFiles`: enumerate the objects under `uploads/`, turn each into a gallery
 * item from its listing entry, its metadata and a one-hour preview link, drop
 * the objects that have no key or whose metadata or link could not be had, and
 * sort the rest newest first. The storage calls are parameters: the listing
 * result, and `head` and `sign` (None where the call throws).
 */
module FileListing {
  import opened Wrappers
  import opened JsStrings
  import Constants

  /** One entry of `Contents`: `Key`, `Size`, `LastModified` (as milliseconds), each possibly absent. */
  datatype ListedObject = ListedObject(key: Option<string>, size: Option<nat>, lastModified: Option<int>)

  /** The listing call's answer: `Contents` may be absent. */
  datatype ListResult = ListResult(contents: Option<seq<ListedObject>>)

  /** The head call's answer: `Metadata` and `ContentType`, each possibly absent. */
  datatype HeadResult = HeadResult(metadata: Option<map<string, string>>, contentType: Option<string>)

  /** A gallery item; `uploadedAt` is the instant in milliseconds (`getTime()`). */
  datatype FileItem = FileItem(
    id: string, fileName: string, fileSize: nat, mimeType: string,
    uploadedAt: int, previewUrl: string, s3Key: string)

  /**
   * The storage and runtime services the listing calls: `head` and `sign` (None
   * when the call throws), `parseDate` for `new Date(text).getTime()`, and `now`
   * for `new Date()`.
   */
  datatype Services = Services(
    head: string -> Option<HeadResult>,
    sign: (string, int) -> Option<string>,
    parseDate: string -> int,
    now: int)

  /** The listing call's `Prefix`: only keys that start with it are enumerated. */
  const LIST_PREFIX: string := "uploads/"
  const PREVIEW_SECONDS: int := 3600
  const DEFAULT_MIME_TYPE: string := "application/octet-stream"

  /** The preview lifetime the listing hard-codes is the shared constant. */
  lemma PreviewLifetimeMatchesConstant()
    ensures PREVIEW_SECONDS == Constants.PREVIEW_URL_EXPIRATION
  {
  }

  /**
   * The item for one listed object, or None when it is dropped: no key (an empty
   * key is falsy too), or the head or sign call threw.
   */
  function BuildItem(obj: ListedObject, svc: Services): (r: Option<FileItem>)
    ensures r.Some? <==>
      obj.key.Some? && obj.key.value != "" && svc.head(obj.key.value).Some?
      && svc.sign(obj.key.value, 3600).Some?
    ensures r.Some? ==> r.value.id == obj.key.value && r.value.s3Key == obj.key.value
    ensures r.Some? ==> r.value.previewUrl == svc.sign(obj.key.value, 3600).value
  {
    if obj.key.None? || obj.key.value == "" then None
    else
      var key := obj.key.value;
      match svc.head(key)
      case None => None
      case Some(head) =>
        var metadata := head.metadata.GetOr(map[]);
        match svc.sign(key, PREVIEW_SECONDS)
        case None => None
        case Some(previewUrl) =>
          var uploadDate := Get(metadata, "uploaddate");
          Some(FileItem(
            key,
            OrElse(Get(metadata, "originalname"), LastSegment(key, '/')),
            obj.size.GetOr(0),
            OrElse(head.contentType, DEFAULT_MIME_TYPE),
            if uploadDate.Some? && uploadDate.value != "" then svc.parseDate(uploadDate.value)
            else obj.lastModified.GetOr(svc.now),
            previewUrl,
            key))
  }

  /** The fallbacks: each field takes the first of its sources that is present and non-empty. */
  lemma ItemFallbacks(obj: ListedObject, svc: Services)
    requires BuildItem(obj, svc).Some?
    ensures var item := BuildItem(obj, svc).value;
      var head := svc.head(obj.key.value).value;
      var metadata := head.metadata.GetOr(map[]);
      && (item.fileName == if "originalname" in metadata && metadata["originalname"] != ""
                           then metadata["originalname"] else LastSegment(obj.key.value, '/'))
      && (item.fileSize == if obj.size.Some? then obj.size.value else 0)
      && (item.mimeType == if head.contentType.Some? && head.contentType.value != ""
                           then head.contentType.value else "application/octet-stream")
      && (item.uploadedAt == if "uploaddate" in metadata && metadata["uploaddate"] != ""
                             then svc.parseDate(metadata["uploaddate"])
                             else if obj.lastModified.Some? then obj.lastModified.value else svc.now)
  {
  }

  /** The positions, in order, of the elements that `f` maps to a value. */
  function KeptIndices<T, U>(xs: seq<T>, f: T -> Option<U>): (ks: seq<nat>)
    ensures |ks| <= |xs|
    ensures forall j :: 0 <= j < |ks| ==> ks[j] < |xs| && f(xs[ks[j]]).Some?
    ensures forall j, k :: 0 <= j < k < |ks| ==> ks[j] < ks[k]
    ensures forall i :: 0 <= i < |xs| && f(xs[i]).Some? ==> i in ks
  {
    if xs == [] then []
    else
      var n := |xs| - 1;
      var front := KeptIndices(xs[..n], f);
      assert forall i :: 0 <= i < n ==> xs[..n][i] == xs[i];
      if f(xs[n]).Some? then front + [n] else front
  }

  /**
   * `xs.map(f).filter(Boolean)` for an `f` whose failures are None: the values,
   * in order. Value `j` is the one at the `j`-th kept position, so each value
   * comes from a different element.
   */
  function Collect<T, U>(xs: seq<T>, f: T -> Option<U>): (ys: seq<U>)
    ensures |ys| == |KeptIndices(xs, f)|
    ensures forall j :: 0 <= j < |ys| ==> f(xs[KeptIndices(xs, f)[j]]) == Some(ys[j])
  {
    if xs == [] then []
    else
      var n := |xs| - 1;
      var front := Collect(xs[..n], f);
      assert forall i :: 0 <= i < n ==> xs[..n][i] == xs[i];
      match f(xs[n])
      case None => front
      case Some(y) => front + [y]
  }

  /** The per-object step of the listing. */
  function Builder(svc: Services): ListedObject -> Option<FileItem> {
    obj => BuildItem(obj, svc)
  }

  /** Newest first: no item is older than one after it. */
  predicate NewestFirst(items: seq<FileItem>) {
    forall i, j :: 0 <= i < j < |items| ==> items[i].uploadedAt >= items[j].uploadedAt
  }

  /** Places `x` before the first item not newer than it, so equal instants keep their order. */
  function Insert(x: FileItem, sorted: seq<FileItem>): (r: seq<FileItem>)
    requires NewestFirst(sorted)
    ensures NewestFirst(r)
    ensures multiset(r) == multiset(sorted) + multiset{x}
    ensures |r| == |sorted| + 1
    ensures r[0] == x || (sorted != [] && r[0] == sorted[0])
  {
    if sorted == [] || x.uploadedAt >= sorted[0].uploadedAt then
      NewestFirstCons(x, sorted);
      [x] + sorted
    else
      var rest := Insert(x, sorted[1..]);
      assert sorted == [sorted[0]] + sorted[1..];
      NewestFirstCons(sorted[0], rest);
      [sorted[0]] + rest
  }

  /** An item no older than the head of a newest-first run can go in front of it. */
  lemma NewestFirstCons(x: FileItem, items: seq<FileItem>)
    requires NewestFirst(items)
    requires items == [] || x.uploadedAt >= items[0].uploadedAt
    ensures NewestFirst([x] + items)
  {
  }

  /**
   * `sort((a, b) => b.uploadedAt - a.uploadedAt)`: a stable sort, newest first.
   * The result is ordered and holds exactly the same items.
   */
  function SortNewestFirst(items: seq<FileItem>): (r: seq<FileItem>)
    ensures NewestFirst(r)
    ensures multiset(r) == multiset(items)
    ensures |r| == |items|
  {
    if items == [] then []
    else
      assert items == [items[0]] + items[1..];
      Insert(items[0], SortNewestFirst(items[1..]))
  }

  /**
   * `listFiles`. None when the listing call throws (the promise rejects); an
   * absent or empty `Contents` gives no items; otherwise the kept objects' items,
   * newest first.
   */
  function ListFiles(listing: Option<ListResult>, svc: Services): (r: Option<seq<FileItem>>)
    ensures r.None? <==> listing.None?
    ensures listing.Some? && (listing.value.contents.None? || listing.value.contents.value == []) ==>
      r == Some([])
    ensures r.Some? ==> NewestFirst(r.value)
    ensures r.Some? && listing.value.contents.Some? ==>
      multiset(r.value) == multiset(Collect(listing.value.contents.value, Builder(svc)))
    ensures r.Some? ==> |r.value| <= if listing.value.contents.Some? then |listing.value.contents.value| else 0
  {
    match listing
    case None => None
    case Some(ListResult(None)) => Some([])
    case Some(ListResult(Some(objs))) =>
      if |objs| == 0 then Some([]) else Some(SortNewestFirst(Collect(objs, Builder(svc))))
  }

  /**
   * Every object that yields an item is listed, and every listed item is the item
   * of some listed object: objects are dropped exactly when they have no key or
   * their head or sign call threw.
   */
  lemma ListedExactlyTheKeptObjects(objs: seq<ListedObject>, svc: Services, item: FileItem)
    ensures item in ListFiles(Some(ListResult(Some(objs))), svc).value <==>
      exists i :: 0 <= i < |objs| && BuildItem(objs[i], svc) == Some(item)
  {
    var r := ListFiles(Some(ListResult(Some(objs))), svc).value;
    var items := Collect(objs, Builder(svc));
    assert item in r <==> item in items by {
      if objs != [] {
        assert item in r <==> item in multiset(r);
        assert item in items <==> item in multiset(items);
      }
    }
    CollectedExactly(objs, Builder(svc), item);
    assert forall i :: 0 <= i < |objs| ==> Builder(svc)(objs[i]) == BuildItem(objs[i], svc);
  }

  /** A value is collected exactly when some element maps to it. */
  lemma CollectedExactly<T, U>(xs: seq<T>, f: T -> Option<U>, y: U)
    ensures y in Collect(xs, f) <==> exists i :: 0 <= i < |xs| && f(xs[i]) == Some(y)
  {
    var ks, ys := KeptIndices(xs, f), Collect(xs, f);
    if y in ys {
      var j :| 0 <= j < |ys| && ys[j] == y;
      assert f(xs[ks[j]]) == Some(y);
    }
    if i :| 0 <= i < |xs| && f(xs[i]) == Some(y) {
      var j :| 0 <= j < |ks| && ks[j] == i;
      assert ys[j] == y;
    }
  }
}
