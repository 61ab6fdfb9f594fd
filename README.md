# SnapShare core, modelled in Dafny

SnapShare is a small image-sharing web application. A browser uploads an image. The
server validates it and stores it in an object store under a date-partitioned key,
`uploads/YYYY/MM/DD/<uuid>.<ext>`, with four metadata entries. The gallery lists the
stored objects, turns each one into an item with a one-hour preview link, and shows
them newest first. A share link is a signed download URL whose lifetime is capped at
seven days. A separate edge worker answers a URL-shortener API, and a Basic-auth
middleware guards every page.

This project models that core as Dafny functions over datatypes, one module per
source file:

| module | file | what it holds |
|---|---|---|
| `Constants` | `constants.dfy` | the size limit, the accepted types, the extension table, the lifetimes, the messages |
| `FileValidator` | `file_validator.dfy` | the ordered validation chain and the unit choice of `formatFileSize` |
| `S3Upload` | `upload.dfy` | the storage key, the metadata and the put request of `uploadFileToS3` |
| `UploadRoute` | `upload_route.dfy` | the `POST /api/upload` guard chain and replies |
| `FileListing` | `list_files.dfy` | the `listFiles` map, filter and sort pipeline |
| `FilesRoute` | `files_route.dfy` | the `GET /api/files` envelope |
| `ShareRoute` | `share_route.dfy` | `POST /api/share`: the `fileId` check and the expiry default and cap |
| `Worker` | `worker.dfy` | worker routing, short-code generation (a method with a loop) and code extraction |
| `Middleware` | `middleware.dfy` | the Basic-auth parse-and-compare gate, and a corrected variant |
| `Lifecycle` | `lifecycle.dfy` | the upload-then-list round trip across the writer and the reader |

Three support modules hold shared vocabulary:
- `Wrappers` holds `Option` and map lookup.
- `JsStrings` holds the JavaScript string operations the code relies on: `split`, `join`, `pop()` of the pieces, `padStart`, `startsWith`, first-match `replace`, `indexOf`, `String(n)`, and `||` on an optional string.
- `Json` holds a JSON field that is absent, a string, or some other value with its truthiness.

Every call outside the core is a function-typed parameter:
- the object store's put, head and sign calls, each of which may fail;
- `new Date(text).getTime()`;
- `atob`, which may throw;
- the environment variables, each of which may be unset.

The clock and the uuid are inputs. The worker's `Math.random()` results are an input
sequence of reals in [0, 1). Times are integers in milliseconds. Strings are
sequences of UTF-16 code units, with one caveat: a Dafny `char` cannot be a lone
surrogate, so a lone surrogate code unit (half of an astral character, say) is
represented by a distinct stand-in character. Lengths, such as the 255-unit name
bound, are unaffected.

## Model

| member | source | states |
|---|---|---|
| `Constants.LimitValues` | apps/web/src/constants/index.ts:6-39 | the size limit is 10485760 bytes, the share limit 604800 s and the preview lifetime 3600 s |
| `Constants.ExtensionTableCoversAllowedTypes` | apps/web/src/constants/index.ts:9-24 | the extension table's keys are exactly the four accepted types, and no extension is `bin` |
| `Constants.ExtensionsDistinct` | apps/web/src/constants/index.ts:19-24 | two different types never share an extension |
| `Constants.ErrorMessagesDistinct` | apps/web/src/constants/index.ts:27-33 | the five messages are pairwise different |
| `FileValidator.ValidateFile` | apps/web/src/lib/validators/file-validator.ts:13-47 | valid exactly when a file is present, at most 10485760 bytes, of one of the four types, with a name of at most 255 units; valid iff no error; a rejection names the first failing check in the order presence, size, type, name |
| `FileValidator.SizeBoundary` | apps/web/src/lib/validators/file-validator.ts:54-56 | 10485760 bytes pass the size check, 10485761 fail it with the size message |
| `FileValidator.TypeCheckIsCaseSensitive` | apps/web/src/lib/validators/file-validator.ts:63-65 | `image/jpeg` is accepted and `image/JPEG` refused |
| `FileValidator.NameLengthBoundary` | apps/web/src/lib/validators/file-validator.ts:72-74 | a 255-unit name passes, a 256-unit name fails |
| `FileValidator.EarliestFailureWins` | apps/web/src/lib/validators/file-validator.ts:22-44 | a file failing all three checks gets the size error; once its size is fixed it gets the type error |
| `FileValidator.FormatFileSize` | apps/web/src/lib/validators/file-validator.ts:81-85 | unit B iff below 1024 (the integer unchanged), KB iff 1024 to 1048575, MB otherwise; the decimal amount is bytes over the unit's size |
| `FileValidator.BytesText` | apps/web/src/lib/validators/file-validator.ts:82 | below 1024 the text is the canonical decimal form of the count (`String(n)`: digits, no leading zero) then ` B`, and it reads back as the byte count |
| `FileValidator.UnitChoiceExamples` | apps/web/src/lib/validators/file-validator.ts:81-85 | the largest accepted upload shows in MB; 1023, 1024, 1048575 and 1048576 fall on the unit boundaries |
| `S3Upload.ExtensionFor` | src/lib/aws/upload.ts:14 | an accepted type gets its table extension, never `bin`; a type named like a member the table inherits from `Object.prototype` (`constructor`, `__proto__`, `toString`, …) gets that member's text, also not `bin`; any other type gets `bin`; the extension is non-empty and holds no `/` or `.` |
| `S3Upload.LookupFacts` | src/lib/aws/upload.ts:14 | the lookup on the extension table finds the table entry for an accepted type, the inherited member's text for a prototype member name, and nothing otherwise; what it finds is never empty, never `bin` and holds no `/` or `.` |
| `S3Upload.InheritedTextIsPlain` | src/lib/aws/upload.ts:14-23 | the text of an inherited member is non-empty, not `bin` and free of `/` and `.`, so a key built with it still decodes |
| `S3Upload.TwoDigitsIsPadStart` | src/lib/aws/upload.ts:19-20 | the month and day text is the decimal form padded with `0` to width 2 |
| `S3Upload.TwoDigitsOf` | src/lib/aws/upload.ts:19-20 | below 100 the padded text is exactly two digits, the tens then the units, and reads back as the number |
| `S3Upload.StorageKeyRoundTrip` | src/lib/aws/upload.ts:17-23 | a built key decodes to the year, the 1-based month, the day, the uuid and the extension; it starts with `uploads/`; its last `/`-segment is `<uuid>.<ext>` |
| `S3Upload.DateSegments` | src/lib/aws/upload.ts:17-20 | the year, month and day segments are digits that read back as the date's numbers, month and day two digits each |
| `S3Upload.KeyDecodes` | src/lib/aws/upload.ts:23 | any key of the form `uploads/y/mm/dd/<uuid>.<ext>` decodes to those fields |
| `S3Upload.KeyStartsWithPrefix` | src/lib/aws/upload.ts:23 | every key whose first segment is `uploads` starts with the listing prefix |
| `S3Upload.BuildMetadata` | src/lib/aws/upload.ts:30-35 | exactly four entries: the original name, the ISO upload instant, the size as `String(size)` (canonical decimal, reading back as the size), and the type |
| `S3Upload.PutRequestFor` | src/lib/aws/upload.ts:14-44 | the put's key decodes to the local date, uuid and extension and lies under `uploads/`; the content type is the file's type; the metadata is the four entries |
| `S3Upload.UploadFileToS3` | src/lib/aws/upload.ts:11-49 | the key is returned iff the put succeeds, and it is the key written; the put sent is the one `PutRequestFor` describes |
| `S3Upload.AcceptedTypesKeepTheirExtension` | src/lib/aws/upload.ts:14 | a validated file is stored under its table extension, never `bin` |
| `UploadRoute.HandlerMessagesMatchConstants` | apps/web/src/app/api/upload/route.ts:11-58 | the handler's own messages are the shared constants |
| `UploadRoute.PostUpload` | apps/web/src/app/api/upload/route.ts:5-60 | a form parse failure is a 500 and a missing file a 400, with nothing written; an invalid file is a 400 carrying the validator's message, with nothing written; a write happens iff the file is valid, under a decodable `uploads/` key with the file's type and metadata; 200 iff the write succeeds, carrying the key, name and size; a failed write is a 500 |
| `UploadRoute.RejectedUploadsWriteNothing` | apps/web/src/app/api/upload/route.ts:22-31 | an oversized file and a wrongly typed file are refused with their own messages and nothing is stored |
| `FileListing.PreviewLifetimeMatchesConstant` | apps/web/src/lib/aws/list-files.ts:40 | the listing's preview lifetime is the shared one-hour constant |
| `FileListing.BuildItem` | apps/web/src/lib/aws/list-files.ts:26-58 | an object yields an item iff it has a non-empty key and its head and sign calls succeed; the item's id and key are the object's key; its preview is the one-hour link |
| `FileListing.ItemFallbacks` | apps/web/src/lib/aws/list-files.ts:37-49 | name: the `originalname` metadata if non-empty, else the key's last `/`-segment; size: `Size` or 0; type: `ContentType` if non-empty, else `application/octet-stream`; instant: `uploaddate` if non-empty, else `LastModified`, else now |
| `FileListing.KeptIndices` | apps/web/src/lib/aws/list-files.ts:64-65 | the positions of the elements that yield a value, strictly increasing, and all of them |
| `FileListing.Collect` | apps/web/src/lib/aws/list-files.ts:61-65 | the values in order, the `j`-th coming from the `j`-th kept position, so each from a different object |
| `FileListing.Insert` | apps/web/src/lib/aws/list-files.ts:66 | inserting into a newest-first run keeps it newest first and adds exactly that item |
| `FileListing.SortNewestFirst` | apps/web/src/lib/aws/list-files.ts:66 | the result is newest first and a permutation of the input |
| `FileListing.ListFiles` | apps/web/src/lib/aws/list-files.ts:10-67 | fails iff the listing call fails; an absent or empty `Contents` gives no items; otherwise the kept items, as a multiset, newest first, never more than the listed objects |
| `FileListing.ListedExactlyTheKeptObjects` | apps/web/src/lib/aws/list-files.ts:26-65 | an item is listed iff some listed object yields it |
| `FileListing.CollectedExactly` | apps/web/src/lib/aws/list-files.ts:64-65 | a value survives the filter iff some element maps to it |
| `FilesRoute.GetFiles` | apps/web/src/app/api/files/route.ts:4-29 | success iff the listing succeeded, with status 200, the files exactly as listed, their count and `hasMore` false; otherwise the generic 500 |
| `FilesRoute.EmptyBucketGivesEmptyPage` | apps/web/src/app/api/files/route.ts:6-16 | no objects, or no `Contents`, give files `[]`, count 0 and `hasMore` false |
| `FilesRoute.ListingFailureIsServerError` | apps/web/src/app/api/files/route.ts:19-27 | a failed listing call gives status 500 and the generic error |
| `ShareRoute.LimitsMatchConstant` | src/app/api/share/route.ts:12-25 | the handler's default and cap are the shared seven-day constant |
| `ShareRoute.EffectiveExpiry` | src/app/api/share/route.ts:12-25 | never above seven days; absent gives seven days; up to seven days, however small or negative, passes unchanged; above is capped |
| `ShareRoute.ClampIsIdempotent` | src/app/api/share/route.ts:25 | capping a capped lifetime changes nothing |
| `ShareRoute.PostShare` | src/app/api/share/route.ts:9-53 | an unreadable body is the generic 500; a missing, empty or non-string `fileId` is a 400 and nothing is signed; otherwise exactly one signing call with the `fileId` and the effective lifetime; success iff it signs, with the URL and `expiresAt` = now + that lifetime, at most seven days on; a failed signing is the generic 500 |
| `ShareRoute.ShareLinksExpireWithinSevenDays` | src/app/api/share/route.ts:24-32 | whatever lifetime is requested, a link issued now expires within seven days |
| `Worker.CharIndex` | apps/worker/src/index.ts:197 | a draw in [0, 1) picks a position inside the alphabet |
| `Worker.CodeFor` | apps/worker/src/index.ts:193-200 | one alphabet character per draw |
| `Worker.GenerateShortCode` | apps/worker/src/index.ts:193-200 | the loop builds exactly the code the six draws spell: six characters of the 62-character alphabet |
| `Worker.DrawPicks` | apps/worker/src/index.ts:197 | the draw `k/62` picks the `k`-th character |
| `Worker.EveryCodeIsReachable` | apps/worker/src/index.ts:193-200 | every string of alphabet characters is spelled by some run of draws |
| `Worker.HandleShortenUrl` | apps/worker/src/index.ts:85-146 | an unreadable body is a 400 `Invalid request body`; a falsy `originalUrl` is a 400 `originalUrl is required`; 201 iff the URL is truthy, with a six-character code, the short URL under the origin and the URL echoed |
| `Worker.HandleRedirect` | apps/worker/src/index.ts:153-188 | under `/s/`, the path exactly `/s/` is the only 400 `Short code is required`; any other gets the 200 placeholder naming the rest of the path |
| `Worker.Fetch` | apps/worker/src/index.ts:16-59 | OPTIONS first on any path; then `/health` on any method, POST `/api/shorten`, paths under `/s/`; a 404 `Not Found` exactly for the rest |
| `Worker.ShortenNeedsPost` | apps/worker/src/index.ts:37-45 | any method but POST and OPTIONS on `/api/shorten` is a 404 |
| `Worker.ShortUrlRoundTrip` | apps/worker/src/index.ts:118-158 | a GET of an issued short URL's path reaches the redirect handler and reads back exactly the issued code |
| `JsStrings.ReplaceFirst` | apps/worker/src/index.ts:154 | the first occurrence of the pattern, wherever it lies, is replaced and the text around it kept; without an occurrence the text is unchanged |
| `Middleware.Middleware` | apps/web/src/middleware.ts:3-27 | a missing or empty header is the 401 challenge; the outcome is to proceed, the same 401 challenge, or a throw; it throws iff the header is present and `atob` rejects its second token |
| `Middleware.FirstTwoPieces` | apps/web/src/middleware.ts:9 | `u:p`, alone or followed by more `:`-separated text, splits into user `u` and password `p` |
| `Middleware.MatchingCredentialsProceed` | apps/web/src/middleware.ts:8-17 | decoded text of the configured user, `:`, the configured password, then nothing or another `:` piece, is let through |
| `Middleware.ProceedMeansMatchingCredentials` | apps/web/src/middleware.ts:8-17 | a request let through decoded to text that starts with `user:password`, where the password ends at the end or at a `:` |
| `Middleware.SchemeIsIgnored` | apps/web/src/middleware.ts:8 | the scheme word before the first space never changes the outcome |
| `Middleware.ColonPasswordNeverMatches` | apps/web/src/middleware.ts:9-15 | a configured password holding `:` is never matched |
| `Middleware.UnsetUserNeverProceeds` | apps/web/src/middleware.ts:12-17 | with the user unset, no request is let through |
| `Middleware.UnsetPasswordAdmitsBareUser` | apps/web/src/middleware.ts:9-15 | with the password unset, a request is let through iff its decoded text is exactly the user name and holds no `:` |
| `Middleware.SplitUserPass` | apps/web/src/middleware.ts:9 | split at the first `:` only: the user holds no `:`, there is a password iff there is a `:`, and user, `:` and password give the text back |
| `Middleware.MiddlewareRfc7617` | apps/web/src/middleware.ts:3-27 | the corrected gate throws exactly when the original does; otherwise it proceeds or gives the same 401 challenge |
| `Middleware.FirstColonAfterUser` | apps/web/src/middleware.ts:9 | in `u:p` with no `:` in `u`, the first `:` sits right after `u` |
| `Middleware.CorrectedAcceptsAnyPassword` | apps/web/src/middleware.ts:9-17 | the corrected gate lets the configured user through with any password, `:` included |
| `Middleware.CorrectedAdmitsOnlyExactCredentials` | apps/web/src/middleware.ts:9-17 | the corrected gate lets a request through only when its decoded text is the configured user (holding no `:`), `:` and the configured password |
| `Middleware.CorrectedWithUnsetSettings` | apps/web/src/middleware.ts:12-17 | with a setting unset, the corrected gate lets through only a decoded text without `:` equal to the configured user, and never anything when the user is unset |
| `Middleware.ColonPasswordDiscrepancy` | apps/web/src/middleware.ts:9-15 | for a password holding `:`, sending exactly the configured credentials is refused as written and let through when corrected |
| `Lifecycle.UploadedFileIsListed` | apps/web/src/lib/aws/list-files.ts:26-52 | an uploaded object's key starts with the listing prefix; one that the listing enumerates and the store reports faithfully is listed with the upload's key as id, its original name (or `<uuid>.<ext>`), its type (or the default), its upload instant and its preview link |
| `Lifecycle.AcceptedUploadKeepsItsType` | src/lib/aws/upload.ts:14-46 | a validated, uploaded and listed file keeps its own type, and its key's extension is not `bin` |

The support modules carry these contracts:
- `JsStrings.Split`: at least one piece, no piece holds the separator, joining gives the text back.
- `JsStrings.SplitJoin`, `JsStrings.SplitAtFirst`, `JsStrings.SplitWithoutSeparator`: the split and join round trips.
- `JsStrings.PadStart`: length, suffix and pad.
- `JsStrings.NatToStringRoundTrip`, `JsStrings.NatToStringInjective`: `String(n)` is digits with no leading zero that read back as `n`.
- `JsStrings.IndexOf`: the first occurrence.
- `JsStrings.ReplaceFirst`: the first occurrence, wherever it is, is replaced, and nothing else changes; without one the text is unchanged.

## Left out

- The object store's put, list, head and sign calls are parameters. Bucket lookup, credentials and the request body bytes are not modelled.
- The uuid is an input holding no `/` or `.`; `generateUuid` is not part of this model.
- The clock is an input. The key's local calendar date and the UTC ISO text stored as `uploaddate` are independent, because near midnight they name different days. `toISOString` and date parsing are oracles.
- A `new Date(text)` that yields an invalid date (NaN) is not modelled: `parseDate` always returns an integer.
- FileValidator.FormatFileSize: does not model the `toFixed(1)` decimal rendering of the KB and MB amounts, which is floating point. It gives the unit and the exact quotient.
- FileListing.SortNewestFirst: is stable as defined, but stability is not stated as a lemma. The source relies on `Array.prototype.sort`, which is stable.
- The listing's `Promise.all` fan-out is modelled as a sequential map. This is exact: `Promise.all` gives its results in input order, whatever the order of completion, so items with equal instants keep their listing order through the stable sort.
- `now` is read once per listing, where the source takes `new Date()` per item without an upload instant.
- ShareRoute.PostShare: `expiresAt` is `now + 1000 * lifetime`. The source adds the seconds with `setSeconds`, which works in local time; across a daylight-saving change the result differs by the shift. Plain addition is exact in zones without daylight saving, such as UTC and JST.
- ShareRoute.PostShare: `expiresIn` is a whole number of seconds when present. A non-number `expiresIn` and the ISO text of `expiresAt` are not modelled.
- UploadRoute.PostUpload: a `file` field that is a string rather than a file is treated as a file. The ISO text of the reply's `uploadedAt` is an input.
- The worker's storage of links and its redirect are commented out in the source and not modelled. The redirect handler's 200 placeholder is modelled.
- The worker's catch-all 500 cannot be reached: no handler throws once the body is parsed. CORS header values, the health body and its timestamp are not modelled.
- `Math.random()` is an input sequence of six reals in [0, 1).
- The middleware `matcher` is framework configuration and is not modelled. `atob`, the base64 decoding of section 4 of RFC 4648, is an oracle that may throw.
- React components, hooks and type-only files carry no core behaviour and are not part of this model.

## Findings

| source | as written | input that shows it | evidently intended | confidence | as-written member | corrected member |
|---|---|---|---|---|---|---|
| apps/web/src/middleware.ts:9-15 | the decoded credentials are split at every `:` and only the piece between the first and the second `:` is compared with the password, so a password holding `:` can never match | `BASIC_AUTH_USER=admin`, `BASIC_AUTH_PASSWORD=a:b`, header `Basic YWRtaW46YTpi` (the text `admin:a:b`) is answered with 401 | split at the first `:` only, as section 2 of RFC 7617 defines user-pass, so the password may hold `:` | not executed | `Middleware.ColonPasswordDiscrepancy` | `Middleware.MiddlewareRfc7617` |
