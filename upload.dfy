/**
 * Writing an accepted file to object storage: the date-partitioned storage key
 * `uploads/YYYY/MM/DD/<uuid>.<ext>`, the four metadata entries stored beside the
 * object, and the put request itself. The storage service is a parameter
 * (`send`, true when the put succeeds); the uuid and the clock are inputs.
 */
module S3Upload {
  import opened Wrappers
  import opened JsStrings
  import opened Constants
  import opened FileValidator

  /** The local calendar date of `new Date()`: `getFullYear()`, `getMonth()` (0-based) and `getDate()`. */
  datatype LocalDate = LocalDate(year: nat, monthIndex: nat, day: nat)

  predicate ValidLocalDate(d: LocalDate) {
    d.monthIndex < 12 && 1 <= d.day <= 31
  }

  /**
   * One reading of `new Date()`: its local calendar date, used in the key, and its
   * UTC ISO-8601 text (`toISOString()`), stored as metadata. The two are taken as
   * independent inputs: near midnight the local and the UTC date differ.
   */
  datatype Clock = Clock(local: LocalDate, iso: string)

  /** What is sent to storage: `Key`, `ContentType` and `Metadata` (bucket and body are not modelled). */
  datatype PutRequest = PutRequest(key: string, contentType: string, metadata: map<string, string>)

  /** The request sent, and the key returned when the put succeeded (None: the put threw). */
  datatype Upload = Upload(request: PutRequest, key: Option<string>)

  /** The fields a storage key is made of. `month` is 1-based, as written in the key. */
  datatype KeyFields = KeyFields(year: nat, month: nat, day: nat, uuid: string, ext: string)

  const KEY_PREFIX: string := "uploads/"

  /** The properties every plain object inherits from `Object.prototype`. */
  const OBJECT_PROTOTYPE_MEMBERS: set<string> := {
    "constructor", "__proto__", "hasOwnProperty", "isPrototypeOf", "propertyIsEnumerable", "toLocaleString",
    "toString", "valueOf", "__defineGetter__", "__defineSetter__", "__lookupGetter__", "__lookupSetter__"}

  /**
   * An inherited member as a template string renders it (V8): `__proto__` is the
   * prototype object itself, every other member a native function.
   */
  function InheritedMemberText(name: string): string {
    if name == "__proto__" then "[object Object]"
    else "function " + (if name == "constructor" then "Object" else name) + "() { [native code] }"
  }

  /** `table[key]` on a plain object literal: an own entry, else an inherited member, else `undefined`. */
  function PropertyLookup(table: map<string, string>, key: string): Option<string> {
    if key in table then Some(table[key])
    else if key in OBJECT_PROTOTYPE_MEMBERS then Some(InheritedMemberText(key))
    else None
  }

  /**
   * `MIME_TO_EXTENSION[type] || 'bin'`. The lookup also reaches the members the
   * table inherits, all truthy, so a type named like one of them gets that
   * member's text rather than `bin`.
   */
  function ExtensionFor(mimeType: string): (ext: string)
    ensures mimeType in ALLOWED_MIME_TYPES ==> ext == MIME_TO_EXTENSION[mimeType] && ext != "bin"
    ensures mimeType !in ALLOWED_MIME_TYPES && mimeType !in OBJECT_PROTOTYPE_MEMBERS ==> ext == "bin"
    ensures mimeType in OBJECT_PROTOTYPE_MEMBERS ==> ext == InheritedMemberText(mimeType) && ext != "bin"
    ensures ext != "" && '/' !in ext && '.' !in ext
  {
    LookupFacts(mimeType);
    OrElse(PropertyLookup(MIME_TO_EXTENSION, mimeType), "bin")
  }

  /** What the lookup finds: a table extension, an inherited member's text, or nothing, never an unusable text. */
  lemma LookupFacts(mimeType: string)
    ensures var r := PropertyLookup(MIME_TO_EXTENSION, mimeType);
      && (mimeType in ALLOWED_MIME_TYPES ==> r == Some(MIME_TO_EXTENSION[mimeType]))
      && (mimeType !in ALLOWED_MIME_TYPES && mimeType !in OBJECT_PROTOTYPE_MEMBERS ==> r.None?)
      && (mimeType in OBJECT_PROTOTYPE_MEMBERS ==> r == Some(InheritedMemberText(mimeType)))
      && (r.Some? ==> r.value != "" && r.value != "bin" && '/' !in r.value && '.' !in r.value)
  {
    ExtensionTableCoversAllowedTypes();
    if mimeType in OBJECT_PROTOTYPE_MEMBERS {
      InheritedMembersAreNotTypes(mimeType);
      InheritedTextIsPlain(mimeType);
    }
  }

  /** No inherited member name is a key of the extension table. */
  lemma InheritedMembersAreNotTypes(name: string)
    requires name in OBJECT_PROTOTYPE_MEMBERS
    ensures name !in MIME_TO_EXTENSION
  {
    assert |name| > 1 && name[1] != 'm';
  }

  /** An inherited member's text is non-empty, is not `bin` and holds no '/' or '.'. */
  lemma InheritedTextIsPlain(name: string)
    requires name in OBJECT_PROTOTYPE_MEMBERS
    ensures var t := InheritedMemberText(name); t != "" && t != "bin" && '/' !in t && '.' !in t
  {
    if name == "__proto__" {
      assert |InheritedMemberText(name)| > 3;
      assert '/' !in "[object Object]" && '.' !in "[object Object]";
    } else {
      MemberNameIsPlain(name);
      var n := if name == "constructor" then "Object" else name;
      FunctionTextIsPlain(n);
    }
  }

  /** The inherited member names are identifiers: no '/' and no '.'. */
  lemma MemberNameIsPlain(name: string)
    requires name in OBJECT_PROTOTYPE_MEMBERS
    ensures '/' !in name && '.' !in name
  {
    ConstructorNamesArePlain();
    PrototypeQueryNamesArePlain();
    EnumerationNamesArePlain();
    ConversionNamesArePlain();
    DefinerNamesArePlain();
    LookupNamesArePlain();
  }

  /** The same fact for the member names, two at a time. */
  lemma ConstructorNamesArePlain()
    ensures forall n <- {"constructor", "__proto__"} :: '/' !in n && '.' !in n
  {
  }

  lemma PrototypeQueryNamesArePlain()
    ensures forall n <- {"hasOwnProperty", "isPrototypeOf"} :: '/' !in n && '.' !in n
  {
  }

  lemma EnumerationNamesArePlain()
    ensures forall n <- {"propertyIsEnumerable", "toLocaleString"} :: '/' !in n && '.' !in n
  {
  }

  lemma ConversionNamesArePlain()
    ensures forall n <- {"toString", "valueOf"} :: '/' !in n && '.' !in n
  {
  }

  lemma DefinerNamesArePlain()
    ensures forall n <- {"__defineGetter__", "__defineSetter__"} :: '/' !in n && '.' !in n
  {
  }

  lemma LookupNamesArePlain()
    ensures forall n <- {"__lookupGetter__", "__lookupSetter__"} :: '/' !in n && '.' !in n
  {
  }

  /** A native function's text adds no '/' and no '.' to its name. */
  lemma FunctionTextIsPlain(n: string)
    requires '/' !in n && '.' !in n
    ensures var t := "function " + n + "() { [native code] }"; |t| > 3 && '/' !in t && '.' !in t
  {
  }

  /** `String(n).padStart(2, '0')`: a '0' in front of a single digit (see `TwoDigitsIsPadStart`). */
  function TwoDigits(n: nat): string {
    if n < 10 then ['0'] + NatToString(n) else NatToString(n)
  }

  /** The zero-prefixing above is exactly padding the decimal form to width 2 with '0'. */
  lemma TwoDigitsIsPadStart(n: nat)
    ensures TwoDigits(n) == PadStart(NatToString(n), 2, '0')
  {
    var s := NatToString(n);
    if n < 10 {
      assert |s| == 1;
      assert Repeat('0', 1) == ['0'];
    } else {
      assert |NatToString(n / 10)| >= 1;
      assert |s| >= 2;
    }
  }

  /** Below 100, the padded form is exactly the tens digit and the units digit. */
  lemma TwoDigitsOf(n: nat)
    requires n < 100
    ensures TwoDigits(n) == [DigitChar(n / 10), DigitChar(n % 10)]
    ensures |TwoDigits(n)| == 2 && IsDigits(TwoDigits(n)) && ParseNat(TwoDigits(n)) == n
  {
    var s := TwoDigits(n);
    if n >= 10 {
      assert NatToString(n / 10) == [DigitChar(n / 10)];
    } else {
      assert DigitChar(0) == '0';
    }
    assert s[..1] == [s[0]];
    assert ParseNat(s[..1]) == n / 10 by {
      assert s[..1][..0] == [];
    }
  }

  /** The '/'-separated segments of a key: prefix, year, month (1-based) and day in two digits, file name. */
  function KeyParts(uuid: string, date: LocalDate, ext: string): seq<string> {
    ["uploads", NatToString(date.year), TwoDigits(date.monthIndex + 1), TwoDigits(date.day), uuid + "." + ext]
  }

  /** `uploads/${year}/${month}/${day}/${uuid}.${extension}`: the segments joined by '/'. */
  function StorageKey(uuid: string, date: LocalDate, ext: string): string {
    Join(KeyParts(uuid, date, ext), '/')
  }

  /** Reads a storage key back into its fields; None for text not of that shape. */
  function DecodeStorageKey(key: string): Option<KeyFields> {
    var parts := Split(key, '/');
    if |parts| == 5 && parts[0] == "uploads" && IsDigits(parts[1])
      && |parts[2]| == 2 && IsDigits(parts[2]) && |parts[3]| == 2 && IsDigits(parts[3])
    then
      var name := Split(parts[4], '.');
      if |name| == 2 then
        Some(KeyFields(ParseNat(parts[1]), ParseNat(parts[2]), ParseNat(parts[3]), name[0], name[1]))
      else None
    else None
  }

  /**
   * Every key the writer builds reads back as the date it was built from (month
   * 1-based, month and day two digits each), the uuid and the extension, starts
   * with the prefix the listing enumerates, and ends in `<uuid>.<ext>` after its
   * last '/'.
   */
  lemma {:induction false} StorageKeyRoundTrip(uuid: string, date: LocalDate, ext: string)
    requires ValidLocalDate(date)
    requires '/' !in uuid && '.' !in uuid && '/' !in ext && '.' !in ext
    ensures DecodeStorageKey(StorageKey(uuid, date, ext)) ==
      Some(KeyFields(date.year, date.monthIndex + 1, date.day, uuid, ext))
    ensures StartsWith(StorageKey(uuid, date, ext), KEY_PREFIX)
    ensures LastSegment(StorageKey(uuid, date, ext), '/') == uuid + "." + ext
    ensures |TwoDigits(date.monthIndex + 1)| == 2 && |TwoDigits(date.day)| == 2
  {
    StorageKeyDecodes(uuid, date, ext);
    StorageKeyLiesUnderPrefix(uuid, date, ext);
    DateSegments(date);
  }

  /** The year in decimal and the month (1-based) and day in two digits each read back as their numbers. */
  lemma DateSegments(date: LocalDate)
    requires ValidLocalDate(date)
    ensures IsDigits(NatToString(date.year)) && ParseNat(NatToString(date.year)) == date.year
    ensures var m := TwoDigits(date.monthIndex + 1); |m| == 2 && IsDigits(m) && ParseNat(m) == date.monthIndex + 1
    ensures var d := TwoDigits(date.day); |d| == 2 && IsDigits(d) && ParseNat(d) == date.day
  {
    NatToStringRoundTrip(date.year);
    TwoDigitsOf(date.monthIndex + 1);
    TwoDigitsOf(date.day);
  }

  lemma StorageKeyDecodes(uuid: string, date: LocalDate, ext: string)
    requires ValidLocalDate(date)
    requires '/' !in uuid && '.' !in uuid && '/' !in ext && '.' !in ext
    ensures DecodeStorageKey(StorageKey(uuid, date, ext)) ==
      Some(KeyFields(date.year, date.monthIndex + 1, date.day, uuid, ext))
    ensures LastSegment(StorageKey(uuid, date, ext), '/') == uuid + "." + ext
  {
    DateSegments(date);
    KeyDecodes(NatToString(date.year), TwoDigits(date.monthIndex + 1), TwoDigits(date.day), uuid, ext);
  }

  lemma StorageKeyLiesUnderPrefix(uuid: string, date: LocalDate, ext: string)
    ensures StartsWith(StorageKey(uuid, date, ext), KEY_PREFIX)
  {
    KeyStartsWithPrefix(NatToString(date.year), TwoDigits(date.monthIndex + 1), TwoDigits(date.day), uuid + "." + ext);
  }

  /** A joined key of digit segments and a '.'-separated name decodes to those segments and ends in the name. */
  lemma KeyDecodes(y: string, m: string, d: string, uuid: string, ext: string)
    requires IsDigits(y) && IsDigits(m) && IsDigits(d) && |m| == 2 && |d| == 2
    requires '/' !in uuid && '.' !in uuid && '/' !in ext && '.' !in ext
    ensures DecodeStorageKey(Join(["uploads", y, m, d, uuid + "." + ext], '/')) ==
      Some(KeyFields(ParseNat(y), ParseNat(m), ParseNat(d), uuid, ext))
    ensures LastSegment(Join(["uploads", y, m, d, uuid + "." + ext], '/'), '/') == uuid + "." + ext
  {
    DigitsHaveNoSlash(y);
    DigitsHaveNoSlash(m);
    DigitsHaveNoSlash(d);
    PrefixSegmentHasNoSlash();
    assert '/' !in uuid + "." + ext;
    SplitFive("uploads", y, m, d, uuid + "." + ext);
    DecodeSegments(Join(["uploads", y, m, d, uuid + "." + ext], '/'), y, m, d, uuid, ext);
  }

  /** Any key whose first segment is `uploads` lies under the listing prefix. */
  lemma KeyStartsWithPrefix(y: string, m: string, d: string, name: string)
    ensures StartsWith(Join(["uploads", y, m, d, name], '/'), KEY_PREFIX)
  {
    var parts, rest := ["uploads", y, m, d, name], [y, m, d, name];
    assert parts[1..] == rest;
    assert Join(parts, '/') == KEY_PREFIX + Join(rest, '/');
    PrefixOfConcat(KEY_PREFIX, Join(rest, '/'));
  }

  /** Five '/'-free segments joined by '/' split back into themselves. */
  lemma SplitFive(a: string, b: string, c: string, d: string, e: string)
    requires '/' !in a && '/' !in b && '/' !in c && '/' !in d && '/' !in e
    ensures Split(Join([a, b, c, d, e], '/'), '/') == [a, b, c, d, e]
  {
    var parts := [a, b, c, d, e];
    assert forall i :: 0 <= i < |parts| ==> '/' !in parts[i];
    SplitJoin(parts, '/');
  }

  lemma PrefixSegmentHasNoSlash()
    ensures '/' !in "uploads"
  {
  }

  lemma DigitsHaveNoSlash(s: string)
    requires IsDigits(s)
    ensures '/' !in s
  {
  }

  lemma PrefixOfConcat(a: string, b: string)
    ensures StartsWith(a + b, a)
  {
    assert (a + b)[..|a|] == a;
  }

  /** A key that splits into the five expected segments decodes to their values. */
  lemma DecodeSegments(key: string, y: string, m: string, d: string, uuid: string, ext: string)
    requires IsDigits(y) && IsDigits(m) && IsDigits(d) && |m| == 2 && |d| == 2
    requires '.' !in uuid && '.' !in ext
    requires Split(key, '/') == ["uploads", y, m, d, uuid + "." + ext]
    ensures DecodeStorageKey(key) == Some(KeyFields(ParseNat(y), ParseNat(m), ParseNat(d), uuid, ext))
    ensures LastSegment(key, '/') == uuid + "." + ext
  {
    SplitAtFirst(uuid, '.', ext);
    SplitWithoutSeparator(ext, '.');
    assert Split(uuid + "." + ext, '.') == [uuid, ext];
  }

  /** The four metadata entries: original name, upload instant, decimal size, type. */
  function BuildMetadata(file: File, iso: string): (m: map<string, string>)
    ensures m.Keys == {"originalname", "uploaddate", "filesize", "mimetype"}
    ensures m["originalname"] == file.name && m["uploaddate"] == iso && m["mimetype"] == file.mimeType
    ensures m["filesize"] == NatToString(file.size)
    ensures IsDigits(m["filesize"]) && ParseNat(m["filesize"]) == file.size
  {
    NatToStringRoundTrip(file.size);
    map["originalname" := file.name, "uploaddate" := iso, "filesize" := NatToString(file.size),
        "mimetype" := file.mimeType]
  }

  /**
   * `uploadFileToS3`: one put, under a key built from the local date of `clock`,
   * the uuid and the type's extension, with the file's type as content type and
   * the four metadata entries. On success it returns the key the object was
   * written under; when the put throws there is no key.
   */
  function UploadFileToS3(file: File, uuid: string, clock: Clock, send: PutRequest -> bool): (r: Upload)
    requires ValidLocalDate(clock.local)
    requires '/' !in uuid && '.' !in uuid
    ensures r.key.Some? <==> send(r.request)
    ensures r.key.Some? ==> r.key.value == r.request.key
    ensures r.request == PutRequestFor(file, uuid, clock)
  {
    var request := PutRequestFor(file, uuid, clock);
    Upload(request, if send(request) then Some(request.key) else None)
  }

  /** The put `uploadFileToS3` sends: the dated key, the file's type and the four metadata entries. */
  function PutRequestFor(file: File, uuid: string, clock: Clock): (request: PutRequest)
    requires ValidLocalDate(clock.local)
    requires '/' !in uuid && '.' !in uuid
    ensures DecodeStorageKey(request.key) ==
      Some(KeyFields(clock.local.year, clock.local.monthIndex + 1, clock.local.day, uuid, ExtensionFor(file.mimeType)))
    ensures StartsWith(request.key, KEY_PREFIX)
    ensures request.contentType == file.mimeType
    ensures request.metadata == BuildMetadata(file, clock.iso)
  {
    var ext := ExtensionFor(file.mimeType);
    StorageKeyRoundTrip(uuid, clock.local, ext);
    PutRequest(StorageKey(uuid, clock.local, ext), file.mimeType, BuildMetadata(file, clock.iso))
  }

  /** An accepted file is never stored under the `bin` fallback. */
  lemma AcceptedTypesKeepTheirExtension(file: File, uuid: string, clock: Clock, send: PutRequest -> bool)
    requires ValidLocalDate(clock.local)
    requires '/' !in uuid && '.' !in uuid
    requires ValidateFile(Some(file)).valid
    ensures DecodeStorageKey(UploadFileToS3(file, uuid, clock, send).request.key) ==
      Some(KeyFields(clock.local.year, clock.local.monthIndex + 1, clock.local.day, uuid, MIME_TO_EXTENSION[file.mimeType]))
    ensures MIME_TO_EXTENSION[file.mimeType] != "bin"
  {
    assert file.mimeType in ALLOWED_MIME_TYPES;
  }
}
