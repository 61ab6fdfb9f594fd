/** The application's limits, accepted image types, storage extensions and messages. */
module Constants {

  /** Largest accepted upload, in bytes: 10 MB. */
  const MAX_FILE_SIZE: nat := 10 * 1024 * 1024

  /** The four accepted image types, compared exactly (case-sensitively). */
  const ALLOWED_MIME_TYPES: seq<string> := ["image/jpeg", "image/png", "image/gif", "image/webp"]

  /** The extension each accepted type is stored under. */
  const MIME_TO_EXTENSION: map<string, string> :=
    map["image/jpeg" := "jpg", "image/png" := "png", "image/gif" := "gif", "image/webp" := "webp"]

  /** Longest lifetime of a share link, in seconds: seven days. */
  const SHARE_LINK_EXPIRATION: nat := 7 * 24 * 60 * 60

  /** Lifetime of a gallery preview link, in seconds: one hour. */
  const PREVIEW_URL_EXPIRATION: nat := 60 * 60

  const FILE_TOO_LARGE: string := "ファイルサイズは10MB以下にしてください"
  const INVALID_FILE_TYPE: string := "対応していないファイル形式です（JPEG, PNG, GIF, WebP）"
  const FILE_NAME_TOO_LONG: string := "ファイル名が長すぎます（255文字以内）"
  const UPLOAD_FAILED: string := "アップロードに失敗しました"
  const NO_FILE_SELECTED: string := "ファイルが選択されていません"

  lemma LimitValues()
    ensures MAX_FILE_SIZE == 10485760
    ensures SHARE_LINK_EXPIRATION == 604800
    ensures PREVIEW_URL_EXPIRATION == 3600
  {
  }

  /** Exactly the accepted types have an extension, and none of them is the fallback `bin`. */
  lemma ExtensionTableCoversAllowedTypes()
    ensures MIME_TO_EXTENSION.Keys == set t | t in ALLOWED_MIME_TYPES
    ensures forall t :: t in MIME_TO_EXTENSION ==> MIME_TO_EXTENSION[t] != "bin"
  {
    var allowed := set t | t in ALLOWED_MIME_TYPES;
    assert allowed == {"image/jpeg", "image/png", "image/gif", "image/webp"} by {
      forall t | t in allowed
        ensures t in {"image/jpeg", "image/png", "image/gif", "image/webp"}
      {
        var i :| 0 <= i < |ALLOWED_MIME_TYPES| && ALLOWED_MIME_TYPES[i] == t;
      }
    }
  }

  /** Two different types never share an extension, so the extension tells the type. */
  lemma ExtensionsDistinct()
    ensures forall s, t :: s in MIME_TO_EXTENSION && t in MIME_TO_EXTENSION && s != t ==>
      MIME_TO_EXTENSION[s] != MIME_TO_EXTENSION[t]
  {
  }

  /** The five messages differ, so a caller can tell which check failed. */
  lemma ErrorMessagesDistinct()
    ensures |{FILE_TOO_LARGE, INVALID_FILE_TYPE, FILE_NAME_TOO_LONG, UPLOAD_FAILED, NO_FILE_SELECTED}| == 5
  {
  }
}
