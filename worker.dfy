/**
 * The URL-shortener edge worker: answer CORS preflights, route on method and
 * path, hand out six-character short codes, and read the code back out of
 * `/s/<code>`. Storage of the links is not implemented by the worker; the random
 * source is a parameter: the `Math.random()` draws, each in [0, 1).
 */
module Worker {
  import opened Wrappers
  import opened JsStrings
  import opened Json

  const ALPHABET: string := "ABCDEFGHIJKLMNOPQRSTUVWXYZabcdefghijklmnopqrstuvwxyz0123456789"
  const CODE_LENGTH: nat := 6
  const SHORT_PATH: string := "/s/"

  /** A run of `Math.random()` results. */
  predicate ValidDraws(draws: seq<real>) {
    forall i :: 0 <= i < |draws| ==> 0.0 <= draws[i] < 1.0
  }

  /** `Math.floor(draw * chars.length)`: always a position inside the alphabet. */
  function CharIndex(draw: real): (k: nat)
    requires 0.0 <= draw < 1.0
    ensures k < |ALPHABET|
  {
    assert 0.0 <= draw * 62.0 < 62.0;
    (draw * 62.0).Floor
  }

  /** The code that a run of draws spells, one character per draw. */
  function CodeFor(draws: seq<real>): (code: string)
    requires ValidDraws(draws)
    ensures |code| == |draws|
    ensures forall i :: 0 <= i < |code| ==> code[i] in ALPHABET
  {
    if draws == [] then []
    else CodeFor(draws[..|draws| - 1]) + [ALPHABET[CharIndex(draws[|draws| - 1])]]
  }

  /** `generateShortCode`: six draws, each appending one alphabet character. */
  method GenerateShortCode(draws: seq<real>) returns (code: string)
    requires |draws| == CODE_LENGTH && ValidDraws(draws)
    ensures code == CodeFor(draws)
    ensures |code| == 6 && forall i :: 0 <= i < |code| ==> code[i] in ALPHABET
  {
    code := "";
    for i := 0 to CODE_LENGTH
      invariant code == CodeFor(draws[..i])
    {
      assert draws[..i + 1][..i] == draws[..i];
      code := code + [ALPHABET[CharIndex(draws[i])]];
    }
    assert draws[..CODE_LENGTH] == draws;
  }

  /** The draw `k / 62` picks the `k`-th character. */
  lemma DrawPicks(k: nat)
    requires k < 62
    ensures 0.0 <= (k as real) / 62.0 < 1.0
    ensures CharIndex((k as real) / 62.0) == k
  {
    assert ((k as real) / 62.0) * 62.0 == k as real;
  }

  /** Where a character of the alphabet sits in it. */
  ghost function AlphabetPosition(c: char): (k: nat)
    requires c in ALPHABET
    ensures k < |ALPHABET| && ALPHABET[k] == c
  {
    var k :| 0 <= k < |ALPHABET| && ALPHABET[k] == c;
    k
  }

  /** A run of draws for a given code: the position of each character, over 62. */
  ghost function DrawsFor(code: string): (draws: seq<real>)
    requires forall i :: 0 <= i < |code| ==> code[i] in ALPHABET
    ensures |draws| == |code| && ValidDraws(draws)
    ensures forall i :: 0 <= i < |code| ==> draws[i] == (AlphabetPosition(code[i]) as real) / 62.0
  {
    var draws := seq(|code|, i requires 0 <= i < |code| => (AlphabetPosition(code[i]) as real) / 62.0);
    assert ValidDraws(draws) by {
      forall i | 0 <= i < |draws|
        ensures 0.0 <= draws[i] < 1.0
      {
        DrawPicks(AlphabetPosition(code[i]));
      }
    }
    draws
  }

  /** Character `i` of the code is the one draw `i` picks. */
  lemma {:induction false} CodeForAt(draws: seq<real>, i: nat)
    requires ValidDraws(draws) && i < |draws|
    ensures CodeFor(draws)[i] == ALPHABET[CharIndex(draws[i])]
  {
    var n := |draws| - 1;
    if i < n {
      CodeForAt(draws[..n], i);
      assert draws[..n][i] == draws[i];
    }
  }

  /** Every code of alphabet characters is spelled by some run of draws: no code is unreachable. */
  lemma EveryCodeIsReachable(code: string)
    requires forall i :: 0 <= i < |code| ==> code[i] in ALPHABET
    ensures CodeFor(DrawsFor(code)) == code
  {
    var draws := DrawsFor(code);
    forall i | 0 <= i < |code|
      ensures CodeFor(draws)[i] == code[i]
    {
      CodeForAt(draws, i);
      var k := AlphabetPosition(code[i]);
      DrawPicks(k);
      assert CharIndex(draws[i]) == k;
    }
  }

  /** What a request body holds: `{ originalUrl, expiresIn? }` (only `originalUrl` is read). */
  datatype ShortenBody = ShortenBody(originalUrl: JsonField)

  /**
   * A request: its method, the origin and path of its URL, and the body as
   * `request.json()` gives it (None: parsing threw, or the JSON is `null`).
   */
  datatype WorkerRequest = WorkerRequest(httpMethod: string, origin: string, pathname: string, body: Option<ShortenBody>)

  datatype WorkerBody =
    | CorsPreflight
    | HealthStatus
    | Shortened(shortCode: string, shortUrl: string, originalUrl: JsonField)
    | JsonError(error: string)
    | PlainText(text: string)
    | RedirectPending(shortCode: string)

  datatype WorkerResponse = WorkerResponse(status: nat, body: WorkerBody)

  /**
   * `handleShortenUrl`: an unreadable body or a falsy `originalUrl` is a 400;
   * otherwise 201 with a fresh code, the short URL under this worker's origin,
   * and the original URL echoed.
   */
  function HandleShortenUrl(origin: string, body: Option<ShortenBody>, draws: seq<real>): (r: WorkerResponse)
    requires |draws| == CODE_LENGTH && ValidDraws(draws)
    ensures body.None? ==> r == WorkerResponse(400, JsonError("Invalid request body"))
    ensures body.Some? && !Truthy(body.value.originalUrl) ==>
      r == WorkerResponse(400, JsonError("originalUrl is required"))
    ensures r.status == 201 <==> body.Some? && Truthy(body.value.originalUrl)
    ensures r.status == 201 ==>
      && r.body.Shortened?
      && |r.body.shortCode| == 6 && (forall i :: 0 <= i < 6 ==> r.body.shortCode[i] in ALPHABET)
      && r.body.shortUrl == origin + SHORT_PATH + r.body.shortCode
      && r.body.originalUrl == body.value.originalUrl
  {
    match body
    case None => WorkerResponse(400, JsonError("Invalid request body"))
    case Some(b) =>
      if !Truthy(b.originalUrl) then WorkerResponse(400, JsonError("originalUrl is required"))
      else
        var shortCode := CodeFor(draws);
        WorkerResponse(201, Shortened(shortCode, origin + "/s/" + shortCode, b.originalUrl))
  }

  /**
   * `handleRedirect`: the code is the path with its first `/s/` removed; an empty
   * code is a 400. The lookup of the target is not implemented, so a found code
   * gets a 200 placeholder naming it.
   */
  function HandleRedirect(pathname: string): (r: WorkerResponse)
    ensures StartsWith(pathname, SHORT_PATH) ==>
      (r.status == 400 <==> pathname == SHORT_PATH)
    ensures StartsWith(pathname, SHORT_PATH) && r.status != 400 ==>
      r == WorkerResponse(200, RedirectPending(pathname[3..])) && SHORT_PATH + r.body.shortCode == pathname
    ensures r.status == 400 ==> r.body == PlainText("Short code is required")
  {
    var shortCode := ReplaceFirst(pathname, "/s/", "");
    assert StartsWith(pathname, SHORT_PATH) ==> shortCode == pathname[3..] && pathname == SHORT_PATH + shortCode by {
      if StartsWith(pathname, SHORT_PATH) {
        assert StartsWith(pathname, "/s/");
        assert shortCode == "" + pathname[3..] == pathname[3..];
        assert pathname == pathname[..3] + pathname[3..];
      }
    }
    if shortCode == "" then WorkerResponse(400, PlainText("Short code is required"))
    else WorkerResponse(200, RedirectPending(shortCode))
  }

  /**
   * `fetch`: preflights first, on any path; then `/health` on any method, `POST
   * /api/shorten`, and paths under `/s/`, in that order; anything else is a 404.
   */
  function Fetch(request: WorkerRequest, draws: seq<real>): (r: WorkerResponse)
    requires |draws| == CODE_LENGTH && ValidDraws(draws)
    ensures request.httpMethod == "OPTIONS" ==> r == WorkerResponse(200, CorsPreflight)
    ensures request.httpMethod != "OPTIONS" && request.pathname == "/health" ==> r == WorkerResponse(200, HealthStatus)
    ensures request.httpMethod == "POST" && request.pathname == "/api/shorten" ==>
      r == HandleShortenUrl(request.origin, request.body, draws)
    ensures request.httpMethod != "OPTIONS" && StartsWith(request.pathname, SHORT_PATH) ==>
      r == HandleRedirect(request.pathname)
    ensures r.status == 404 <==>
      request.httpMethod != "OPTIONS" && request.pathname != "/health"
      && !(request.pathname == "/api/shorten" && request.httpMethod == "POST")
      && !StartsWith(request.pathname, SHORT_PATH)
    ensures r.status == 404 ==> r.body == PlainText("Not Found")
  {
    assert !StartsWith("/health", SHORT_PATH) && !StartsWith("/api/shorten", SHORT_PATH) by {
      assert "/health"[1] != SHORT_PATH[1] && "/api/shorten"[1] != SHORT_PATH[1];
    }
    if request.httpMethod == "OPTIONS" then WorkerResponse(200, CorsPreflight)
    else if request.pathname == "/health" then WorkerResponse(200, HealthStatus)
    else if request.pathname == "/api/shorten" && request.httpMethod == "POST" then
      HandleShortenUrl(request.origin, request.body, draws)
    else if StartsWith(request.pathname, "/s/") then HandleRedirect(request.pathname)
    else WorkerResponse(404, PlainText("Not Found"))
  }

  /** Only POST reaches the shortener: any other method on `/api/shorten` is a 404. */
  lemma ShortenNeedsPost(request: WorkerRequest, draws: seq<real>)
    requires |draws| == CODE_LENGTH && ValidDraws(draws)
    requires request.pathname == "/api/shorten" && request.httpMethod != "POST" && request.httpMethod != "OPTIONS"
    ensures Fetch(request, draws) == WorkerResponse(404, PlainText("Not Found"))
  {
    assert !StartsWith(request.pathname, SHORT_PATH) by { assert request.pathname[1] != SHORT_PATH[1]; }
  }

  /**
   * The short URL handed out resolves to its own code: a GET of its path is
   * routed to the redirect handler, which reads back exactly the code issued,
   * even when the code happens to contain `/s/` itself.
   */
  lemma ShortUrlRoundTrip(origin: string, url: string, draws: seq<real>, later: seq<real>)
    requires |draws| == CODE_LENGTH && ValidDraws(draws) && |later| == CODE_LENGTH && ValidDraws(later)
    requires Truthy(Text(url))
    ensures var made := HandleShortenUrl(origin, Some(ShortenBody(Text(url))), draws);
      && made.status == 201
      && made.body.shortUrl == origin + SHORT_PATH + made.body.shortCode
      && Fetch(WorkerRequest("GET", origin, SHORT_PATH + made.body.shortCode, None), later) ==
         WorkerResponse(200, RedirectPending(made.body.shortCode))
  {
    var code := CodeFor(draws);
    var path := SHORT_PATH + code;
    assert StartsWith(path, SHORT_PATH);
    assert path != "/health" && path != "/api/shorten" by { assert path[1] == 's'; }
    assert path[3..] == code;
  }
}
