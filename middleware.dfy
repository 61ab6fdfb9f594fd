/**
 * The Basic-authentication gate in front of every page: take the second
 * space-separated token of the `Authorization` header, base64-decode it, split
 * the text on ':' and compare the first two pieces with the configured user and
 * password. The decoder `atob` is a parameter (None where it throws), and so are
 * the two environment variables (None when unset).
 */
module Middleware {
  import opened Wrappers
  import opened JsStrings

  /** `BASIC_AUTH_USER` and `BASIC_AUTH_PASSWORD`. */
  datatype Credentials = Credentials(user: Option<string>, password: Option<string>)

  /** Let the request through, challenge it with a 401, or fail because the decoder threw. */
  datatype Outcome = Proceed | Unauthorized(status: nat, wwwAuthenticate: string, body: string) | Threw

  const CHALLENGE: Outcome := Unauthorized(401, "Basic realm=\"Secure Area\"", "認証が必要です")

  /** `header.split(' ')[1]`; when there is no second token `atob` receives `undefined`, read as the text "undefined". */
  function CredentialToken(header: string): string {
    var parts := Split(header, ' ');
    if |parts| > 1 then parts[1] else "undefined"
  }

  /** `const [user, password] = decoded.split(':')`: the first piece, and the second if there is one. */
  function UserOf(decoded: string): string {
    Split(decoded, ':')[0]
  }

  function PasswordOf(decoded: string): Option<string> {
    var parts := Split(decoded, ':');
    if |parts| > 1 then Some(parts[1]) else None
  }

  /**
   * `middleware`. A missing or empty header, and wrong credentials, give the same
   * 401 challenge; a token the decoder rejects makes the middleware throw.
   */
  function Middleware(authorization: Option<string>, atob: string -> Option<string>, valid: Credentials): (r: Outcome)
    ensures authorization.None? || authorization.value == "" ==> r == CHALLENGE
    ensures r == Proceed || r == CHALLENGE || r == Threw
    ensures r == Threw <==>
      authorization.Some? && authorization.value != "" && atob(CredentialToken(authorization.value)).None?
  {
    if authorization.None? || authorization.value == "" then CHALLENGE
    else
      match atob(CredentialToken(authorization.value))
      case None => Threw
      case Some(decoded) =>
        if Some(UserOf(decoded)) == valid.user && PasswordOf(decoded) == valid.password then Proceed
        else CHALLENGE
  }

  /** The text of `u:p`, optionally followed by more ':'-separated text, splits into `u` and `p` first. */
  lemma FirstTwoPieces(u: string, p: string, rest: string)
    requires ':' !in u && ':' !in p
    requires rest == "" || rest[0] == ':'
    ensures UserOf(u + ":" + p + rest) == u && PasswordOf(u + ":" + p + rest) == Some(p)
  {
    if rest == "" {
      SplitWithoutSeparator(p, ':');
      SplitAtFirst(u, ':', p);
      assert u + ":" + p + rest == u + [':'] + p by { Reassociate(u, p, rest); }
    } else {
      var t := rest[1..];
      assert rest == [':'] + t;
      assert p + rest == p + [':'] + t;
      SplitAtFirst(p, ':', t);
      SplitAtFirst(u, ':', p + rest);
      Reassociate(u, p, rest);
    }
  }

  lemma Reassociate(u: string, p: string, rest: string)
    ensures u + ":" + p + rest == u + [':'] + (p + rest)
  {
  }

  /**
   * Access is granted when the decoded text is the configured user, ':', the
   * configured password, and then nothing or another ':'-separated part.
   */
  lemma MatchingCredentialsProceed(header: string, atob: string -> Option<string>, u: string, p: string, rest: string)
    requires header != ""
    requires ':' !in u && ':' !in p && (rest == "" || rest[0] == ':')
    requires atob(CredentialToken(header)) == Some(u + ":" + p + rest)
    ensures Middleware(Some(header), atob, Credentials(Some(u), Some(p))) == Proceed
  {
    FirstTwoPieces(u, p, rest);
  }

  /**
   * Conversely, access granted against a configured user and password means the
   * decoded text starts with `user:password` and the password piece ends there.
   */
  lemma ProceedMeansMatchingCredentials(header: string, atob: string -> Option<string>, u: string, p: string)
    requires Middleware(Some(header), atob, Credentials(Some(u), Some(p))) == Proceed
    ensures atob(CredentialToken(header)).Some?
    ensures var d := atob(CredentialToken(header)).value;
      && StartsWith(d, u + ":" + p)
      && (|d| == |u| + 1 + |p| || d[|u| + 1 + |p|] == ':')
  {
    var d := atob(CredentialToken(header)).value;
    var parts := Split(d, ':');
    assert parts[0] == u && |parts| > 1 && parts[1] == p;
    assert d == u + [':'] + Join(parts[1..], ':');
    if |parts| == 2 {
      assert Join(parts[1..], ':') == p;
    } else {
      assert parts[1..][1..] == parts[2..];
      assert Join(parts[1..], ':') == p + [':'] + Join(parts[2..], ':');
      assert d == (u + ":" + p) + ([':'] + Join(parts[2..], ':'));
    }
  }

  /** The scheme word before the first space is never looked at. */
  lemma SchemeIsIgnored(scheme1: string, scheme2: string, credentials: string, atob: string -> Option<string>,
                        valid: Credentials)
    requires ' ' !in scheme1 && ' ' !in scheme2
    ensures Middleware(Some(scheme1 + " " + credentials), atob, valid) ==
            Middleware(Some(scheme2 + " " + credentials), atob, valid)
  {
    SplitAtFirst(scheme1, ' ', credentials);
    SplitAtFirst(scheme2, ' ', credentials);
    assert scheme1 + " " + credentials != "" && scheme2 + " " + credentials != "";
  }

  /**
   * As written, a configured password containing ':' can never be matched: the
   * compared piece stops at the next ':'.
   */
  lemma ColonPasswordNeverMatches(authorization: Option<string>, atob: string -> Option<string>, u: Option<string>,
                                  p: string)
    requires ':' in p
    ensures Middleware(authorization, atob, Credentials(u, Some(p))) != Proceed
  {
  }

  /** With `BASIC_AUTH_USER` unset, no request is let through: no piece equals `undefined`. */
  lemma UnsetUserNeverProceeds(authorization: Option<string>, atob: string -> Option<string>,
                               password: Option<string>)
    ensures Middleware(authorization, atob, Credentials(None, password)) != Proceed
  {
  }

  /**
   * With `BASIC_AUTH_PASSWORD` unset, exactly the decoded text `user` alone, with
   * no ':' at all, is let through: the missing password piece equals the missing
   * setting.
   */
  lemma UnsetPasswordAdmitsBareUser(header: string, atob: string -> Option<string>, u: string)
    requires header != ""
    ensures Middleware(Some(header), atob, Credentials(Some(u), None)) == Proceed <==>
      atob(CredentialToken(header)) == Some(u) && ':' !in u
  {
    if atob(CredentialToken(header)) == Some(u) && ':' !in u {
      SplitWithoutSeparator(u, ':');
    }
    if Middleware(Some(header), atob, Credentials(Some(u), None)) == Proceed {
      var d := atob(CredentialToken(header)).value;
      var parts := Split(d, ':');
      assert |parts| == 1 && parts[0] == u;
      assert d == Join(parts, ':') == u;
    }
  }

  /** `user:password` split at the first ':' only, as section 2 of RFC 7617 defines it. */
  function SplitUserPass(decoded: string): (r: (string, Option<string>))
    ensures ':' !in r.0
    ensures r.1.None? <==> ':' !in decoded
    ensures r.1.Some? ==> decoded == r.0 + ":" + r.1.value
  {
    match IndexOf(decoded, ":")
    case None =>
      assert forall i :: 0 <= i < |decoded| ==> decoded[i] != ':' by {
        forall i | 0 <= i < |decoded| ensures decoded[i] != ':' {
          assert !StartsWith(decoded[i..], ":");
          assert decoded[i..][..1] == [decoded[i]];
        }
      }
      (decoded, None)
    case Some(i) =>
      assert forall j :: 0 <= j < i ==> decoded[j] != ':' by {
        forall j | 0 <= j < i ensures decoded[j] != ':' {
          assert !StartsWith(decoded[j..], ":");
          assert decoded[j..][..1] == [decoded[j]];
        }
      }
      assert decoded[i] == ':' by { assert decoded[i..i + 1] == ":"; }
      assert decoded == decoded[..i] + ":" + decoded[i + 1..];
      (decoded[..i], Some(decoded[i + 1..]))
  }

  /** The gate with the credentials split at the first ':' only; otherwise the same. */
  function MiddlewareRfc7617(authorization: Option<string>, atob: string -> Option<string>, valid: Credentials)
    : (r: Outcome)
    ensures r == Proceed || r == CHALLENGE || r == Threw
    ensures (r == Threw) == (Middleware(authorization, atob, valid) == Threw)
  {
    if authorization.None? || authorization.value == "" then CHALLENGE
    else
      match atob(CredentialToken(authorization.value))
      case None => Threw
      case Some(decoded) =>
        var (user, password) := SplitUserPass(decoded);
        if Some(user) == valid.user && password == valid.password then Proceed else CHALLENGE
  }

  /** The first ':' of `u:p` is the one after `u`, when `u` holds none. */
  lemma FirstColonAfterUser(u: string, p: string)
    requires ':' !in u
    ensures IndexOf(u + ":" + p, ":") == Some(|u|)
  {
    var d := u + ":" + p;
    assert d[|u|..|u| + 1] == ":";
    assert StartsWith(d[|u|..], ":");
    forall j | 0 <= j < |u|
      ensures !StartsWith(d[j..], ":") && d[j] != ':'
    {
      assert d[j..][..1] == [u[j]];
    }
    var r := IndexOf(d, ":");
    assert d[r.value] == ':' by { assert d[r.value..r.value + 1] == ":"; }
  }

  /** Corrected: any password, ':' included, is accepted when sent with its user. */
  lemma CorrectedAcceptsAnyPassword(header: string, atob: string -> Option<string>, u: string, p: string)
    requires header != "" && ':' !in u
    requires atob(CredentialToken(header)) == Some(u + ":" + p)
    ensures MiddlewareRfc7617(Some(header), atob, Credentials(Some(u), Some(p))) == Proceed
  {
    var d := u + ":" + p;
    FirstColonAfterUser(u, p);
    assert d[..|u|] == u && d[|u| + 1..] == p;
  }

  /**
   * Conversely, the corrected gate lets a request through only when the decoded
   * text is the configured user, ':' and the configured password.
   */
  lemma CorrectedAdmitsOnlyExactCredentials(header: string, atob: string -> Option<string>, u: string, p: string)
    requires MiddlewareRfc7617(Some(header), atob, Credentials(Some(u), Some(p))) == Proceed
    ensures ':' !in u && atob(CredentialToken(header)) == Some(u + ":" + p)
  {
  }

  /** With either setting unset, the corrected gate admits nothing but a text without ':' equal to the user. */
  lemma CorrectedWithUnsetSettings(header: string, atob: string -> Option<string>, valid: Credentials)
    requires valid.user.None? || valid.password.None?
    requires MiddlewareRfc7617(Some(header), atob, valid) == Proceed
    ensures valid.user.Some? && valid.password.None?
    ensures atob(CredentialToken(header)) == Some(valid.user.value) && ':' !in valid.user.value
  {
  }

  /**
   * The discrepancy: a user sending exactly its configured user and a password
   * holding ':' (`admin` and `a:b`, say) is refused as written and admitted when
   * the text is split at its first ':' only.
   */
  lemma ColonPasswordDiscrepancy(header: string, atob: string -> Option<string>, u: string, p: string)
    requires header != "" && ':' !in u && ':' in p
    requires atob(CredentialToken(header)) == Some(u + ":" + p)
    ensures Middleware(Some(header), atob, Credentials(Some(u), Some(p))) == CHALLENGE
    ensures MiddlewareRfc7617(Some(header), atob, Credentials(Some(u), Some(p))) == Proceed
  {
    ColonPasswordNeverMatches(Some(header), atob, Some(u), p);
    CorrectedAcceptsAnyPassword(header, atob, u, p);
  }
}
