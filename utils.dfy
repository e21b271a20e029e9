/** Shared helpers: capitalisation, the naming and result filtering of the
    image upload helper, and the check for an API error response. */
module Utils {
  import opened JsValues
  import opened JsStrings

  /** `capitalizeString`: the first character in upper case, the rest as it is. */
  function Capitalize(s: string): (r: string)
    ensures |r| == |s|
    ensures s != [] ==> r[0] == UpperChar(s[0]) && r[1..] == s[1..]
    ensures s != [] ==> !IsLowerAscii(r[0])
  {
    if s == [] then [] else [UpperChar(s[0])] + s[1..]
  }

  /** Capitalising twice is capitalising once. */
  lemma CapitalizeIdempotent(s: string)
    ensures Capitalize(Capitalize(s)) == Capitalize(s)
  {
    if s != [] {
      var r := Capitalize(s);
      assert UpperChar(r[0]) == r[0];
      assert Capitalize(r) == [r[0]] + r[1..];
    }
  }

  /** The last of the pieces `split` returns, which always returns one at least. */
  function LastPiece(parts: seq<string>): string
    requires parts != []
  {
    parts[|parts| - 1]
  }

  /** `name.split(".").pop()` */
  function Extension(name: string): (ext: string)
    ensures '.' !in ext
  {
    LastPiece(SplitOn(name, '.'))
  }

  /** A name without a dot is its own extension. */
  lemma ExtensionOfPlainName(name: string)
    requires '.' !in name
    ensures Extension(name) == name
  {
    SplitWithoutSeparator(name, '.');
  }

  /** A name with a dot has as extension the text after its last dot, whatever
      comes before. */
  lemma ExtensionAfterDot(prefix: string, ext: string)
    requires '.' !in ext
    ensures Extension(prefix + "." + ext) == ext
  {
    SplitLastAfterSeparator(prefix, ext, '.');
    SplitWithoutSeparator(ext, '.');
  }

  /** The name a file is uploaded under: its name, "-", the time in
      milliseconds, ".", its extension. */
  function UploadName(name: string, now: nat): (upload: string)
    ensures |upload| > |name| + 1 && upload[..|name|] == name && upload[|name|] == '-'
    ensures Extension(upload) == Extension(name)
  {
    var ext := Extension(name);
    var stamp := "-" + DecimalString(now);
    ExtensionAfterDot(name + stamp, ext);
    assert name + (stamp + "." + ext) == name + stamp + "." + ext;
    name + (stamp + "." + ext)
  }

  /** The content type sent with a file: "image/" and its extension. */
  function ContentType(name: string): (t: string)
    ensures |t| >= 6 && t[..6] == "image/" && '.' !in t[6..]
  {
    "image/" + Extension(name)
  }

  datatype UploadFile = UploadFile(name: string)

  /** What is sent for one file. */
  datatype UploadRequest = UploadRequest(file: UploadFile, name: string, contentType: string)

  /** How the request for one file ended: an HTTP status with its parsed
      body, or an exception from `fetch` or from reading the body. */
  datatype Response = Response(status: int, body: Json) | Threw

  /** The requests the helper sends: none when `files` is not an array
      (`None`) or is empty, otherwise one per file, in order, each stamped
      with the clock reading taken for it. */
  function UploadRequests(files: Option<seq<UploadFile>>, stamps: seq<nat>): (reqs: seq<UploadRequest>)
    requires files.Some? ==> |stamps| == |files.value|
    ensures files.None? ==> reqs == []
    ensures files.Some? ==> |reqs| == |files.value|
    ensures files.Some? ==> forall i :: 0 <= i < |reqs| ==>
      && reqs[i].file == files.value[i]
      && Extension(reqs[i].name) == Extension(files.value[i].name)
      && reqs[i].contentType == ContentType(files.value[i].name)
  {
    if files.None? then []
    else
      var fs := files.value;
      seq(|fs|, i requires 0 <= i < |fs| =>
        UploadRequest(fs[i], UploadName(fs[i].name, stamps[i]), ContentType(fs[i].name)))
  }

  /** What the promise for one file resolves to: the body's `url` after a
      200, `undefined` after any other status or an exception. */
  function Settled(r: Response): (v: Json)
    ensures !(r.Response? && r.status == 200) ==> v == JUndefined
    ensures r.Response? && r.status == 200 ==> v == Member(r.body, "url")
  {
    match r
    case Response(status, body) => if status == 200 then Member(body, "url") else JUndefined
    case Threw => JUndefined
  }

  /** `urls.filter((url) => url !== null)` */
  function DropNull(urls: seq<Json>): (kept: seq<Json>)
    ensures JNull !in kept
    ensures |kept| <= |urls|
  {
    if urls == [] then []
    else (if urls[0] == JNull then [] else [urls[0]]) + DropNull(urls[1..])
  }

  /** The filter removes every `null` and keeps every other value as often
      as it occurs. */
  lemma {:induction false} DropNullCounts(urls: seq<Json>, v: Json)
    ensures multiset(DropNull(urls))[v] == if v == JNull then 0 else multiset(urls)[v]
  {
    if urls != [] {
      DropNullCounts(urls[1..], v);
      assert urls == [urls[0]] + urls[1..];
    }
  }

  /** The filter keeps the order of the results. */
  lemma {:induction false} DropNullConcat(a: seq<Json>, b: seq<Json>)
    ensures DropNull(a + b) == DropNull(a) + DropNull(b)
  {
    if a == [] {
      assert a + b == b;
    } else {
      var head := if a[0] == JNull then [] else [a[0]];
      assert (a + b)[0] == a[0];
      assert (a + b)[1..] == a[1..] + b;
      DropNullConcat(a[1..], b);
      assert DropNull(a + b) == head + (DropNull(a[1..]) + DropNull(b));
      assert head + (DropNull(a[1..]) + DropNull(b)) == (head + DropNull(a[1..])) + DropNull(b);
    }
  }

  /** `uploadImagesHandler`: no file, no result; otherwise what each upload
      resolved to, in order, without the `null`s. */
  function UploadImages(files: Option<seq<UploadFile>>, responses: seq<Response>): (urls: seq<Json>)
    requires files.Some? ==> |responses| == |files.value|
    ensures files.None? || files.value == [] ==> urls == []
    ensures JNull !in urls
    ensures |urls| <= |responses|
  {
    if files.None? || files.value == [] then []
    else DropNull(seq(|responses|, i requires 0 <= i < |responses| => Settled(responses[i])))
  }

  /** A failed upload is not dropped: it stays in the result as `undefined`. */
  lemma FailedUploadKept(files: Option<seq<UploadFile>>, responses: seq<Response>, i: nat)
    requires files.Some? && |responses| == |files.value|
    requires i < |responses| && !(responses[i].Response? && responses[i].status == 200)
    ensures JUndefined in UploadImages(files, responses)
  {
    var settled := seq(|responses|, j requires 0 <= j < |responses| => Settled(responses[j]));
    assert settled[i] == JUndefined;
    assert multiset(settled)[JUndefined] > 0;
    DropNullCounts(settled, JUndefined);
  }

  /** Every upload that succeeded with a `url` in its body contributes it. */
  lemma UploadedUrlKept(files: Option<seq<UploadFile>>, responses: seq<Response>, i: nat, url: string)
    requires files.Some? && |responses| == |files.value|
    requires i < |responses| && responses[i] == Response(200, JObj(map["url" := JStr(url)]))
    ensures JStr(url) in UploadImages(files, responses)
  {
    var settled := seq(|responses|, j requires 0 <= j < |responses| => Settled(responses[j]));
    assert settled[i] == JStr(url);
    assert multiset(settled)[JStr(url)] > 0;
    DropNullCounts(settled, JStr(url));
  }

  /** `"key" in v` for a value `typeof` calls an object. */
  predicate HasProperty(v: Json, key: string)
  {
    v.JObj? && key in v.fields
  }

  /** `isApiResponse`: a non-null object with a numeric `status`. */
  function IsApiResponse(error: Json): (b: bool)
    ensures b <==> error.JObj? && "status" in error.fields && error.fields["status"].JNum?
  {
    TypeOf(error) == "object" && error != JNull && HasProperty(error, "status")
    && TypeOf(Member(error, "status")) == "number"
  }

  /** `isRTKResponse`: the same test under another name. */
  function IsRTKResponse(error: Json): (b: bool)
    ensures b <==> error.JObj? && "status" in error.fields && error.fields["status"].JNum?
  {
    TypeOf(error) == "object" && error != JNull && HasProperty(error, "status")
    && TypeOf(Member(error, "status")) == "number"
  }

  /** The two checks agree on every value. */
  lemma ResponseChecksAgree(error: Json)
    ensures IsApiResponse(error) == IsRTKResponse(error)
  {
  }
}
