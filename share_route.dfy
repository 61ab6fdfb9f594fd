/**
 * `POST /api/share`: check the `fileId`, default the requested lifetime to seven
 * days and cap it there, sign a download link for that long, and report when it
 * expires. The signer is a parameter (None when it throws); times are milliseconds.
 */
module ShareRoute {
  import opened Wrappers
  import opened Json
  import Constants

  /** `{ fileId, expiresIn? }`; `expiresIn` is a whole number of seconds when present. */
  datatype ShareRequest = ShareRequest(fileId: JsonField, expiresIn: Option<int>)

  /** `expiresAt` is the instant in milliseconds (its ISO-8601 text is not modelled). */
  datatype ShareData = ShareData(shareUrl: string, expiresAt: int)

  /** HTTP status and JSON body `{ success, data?, error? }`. */
  datatype ShareResponse = ShareResponse(status: nat, success: bool, data: Option<ShareData>, error: Option<string>)

  /** A call to the signer: the object key and the lifetime in seconds. */
  datatype SignCall = SignCall(key: string, expiresIn: int)

  /** The reply, and the signing call made, if one was. */
  datatype ShareExchange = ShareExchange(response: ShareResponse, signed: Option<SignCall>)

  const DEFAULT_EXPIRES_IN: int := 604800
  const MAX_EXPIRES_IN: int := 604800
  const INVALID_FILE_ID: string := "ファイルIDが無効です"
  const SHARE_FAILED: string := "共有リンクの生成に失敗しました"

  /** The handler's default and cap are the shared seven-day constant. */
  lemma LimitsMatchConstant()
    ensures DEFAULT_EXPIRES_IN == MAX_EXPIRES_IN == Constants.SHARE_LINK_EXPIRATION
  {
  }

  /**
   * `Math.min(expiresIn = 604800, 604800)`: never more than seven days; an absent
   * request gets seven days; anything up to seven days, however small or
   * negative, passes unchanged.
   */
  function EffectiveExpiry(expiresIn: Option<int>): (e: int)
    ensures e <= Constants.SHARE_LINK_EXPIRATION
    ensures expiresIn.None? ==> e == 604800
    ensures expiresIn.Some? && expiresIn.value <= 604800 ==> e == expiresIn.value
    ensures expiresIn.Some? && expiresIn.value > 604800 ==> e == 604800
  {
    var requested := expiresIn.GetOr(DEFAULT_EXPIRES_IN);
    if requested <= MAX_EXPIRES_IN then requested else MAX_EXPIRES_IN
  }

  /** Capping an already capped lifetime changes nothing. */
  lemma ClampIsIdempotent(expiresIn: Option<int>)
    ensures EffectiveExpiry(Some(EffectiveExpiry(expiresIn))) == EffectiveExpiry(expiresIn)
  {
  }

  /** A usable file id: a non-empty string (`!fileId || typeof fileId !== 'string'` rejects the rest). */
  predicate ValidFileId(f: JsonField) {
    f.Text? && f.text != ""
  }

  function Failure(status: nat, error: string): ShareResponse {
    ShareResponse(status, false, None, Some(error))
  }

  /**
   * The handler. `body` is the parsed JSON (None: `request.json()` threw), `sign`
   * the signer, `now` the instant of `new Date()` after signing.
   */
  function PostShare(body: Option<ShareRequest>, sign: (string, int) -> Option<string>, now: int): (r: ShareExchange)
    ensures body.None? ==> r == ShareExchange(Failure(500, SHARE_FAILED), None)
    ensures body.Some? && !ValidFileId(body.value.fileId) ==>
      r == ShareExchange(Failure(400, INVALID_FILE_ID), None)
    ensures r.signed.Some? <==> body.Some? && ValidFileId(body.value.fileId)
    ensures r.signed.Some? ==>
      r.signed.value == SignCall(body.value.fileId.text, EffectiveExpiry(body.value.expiresIn))
    ensures r.response.success <==> r.signed.Some? && sign(r.signed.value.key, r.signed.value.expiresIn).Some?
    ensures r.response.success ==>
      && r.response.status == 200
      && r.response.data ==
         Some(ShareData(sign(r.signed.value.key, r.signed.value.expiresIn).value, now + 1000 * r.signed.value.expiresIn))
      && r.response.data.value.expiresAt <= now + 1000 * 604800
    ensures r.signed.Some? && !r.response.success ==> r.response == Failure(500, SHARE_FAILED)
  {
    match body
    case None => ShareExchange(Failure(500, SHARE_FAILED), None)
    case Some(request) =>
      if !ValidFileId(request.fileId) then ShareExchange(Failure(400, INVALID_FILE_ID), None)
      else
        var fileId := request.fileId.text;
        var validExpiresIn := EffectiveExpiry(request.expiresIn);
        var call := SignCall(fileId, validExpiresIn);
        match sign(fileId, validExpiresIn)
        case None => ShareExchange(Failure(500, SHARE_FAILED), Some(call))
        case Some(shareUrl) =>
          ShareExchange(ShareResponse(200, true, Some(ShareData(shareUrl, now + 1000 * validExpiresIn)), None),
                        Some(call))
  }

  /** Whatever lifetime is asked for, a share link issued now expires within seven days. */
  lemma ShareLinksExpireWithinSevenDays(fileId: string, expiresIn: Option<int>, sign: (string, int) -> Option<string>,
                                        now: int)
    requires fileId != ""
    requires PostShare(Some(ShareRequest(Text(fileId), expiresIn)), sign, now).response.success
    ensures PostShare(Some(ShareRequest(Text(fileId), expiresIn)), sign, now).response.data.value.expiresAt
      <= now + 1000 * Constants.SHARE_LINK_EXPIRATION
  {
  }
}
