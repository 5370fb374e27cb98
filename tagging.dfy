/** `get_image_tags_batch_as_parts`: reads the stored base64 files of a
    batch of images, sends the ones that load to the vision model together
    with one text prompt, and cleans and parses the model's JSON answer.
    The environment, the file system, base64 decoding, the model and the
    JSON parser are parameters. */
module Tagging {
  import opened Wrappers
  import opened Records
  import opened Seqs
  import opened Text

  type Bytes = seq<bv8>

  /** A part of the model request: the text prompt, which mentions the
      number of paths asked for and the tag cap, or one decoded image. */
  datatype Part = PromptPart(imageCount: int, maxTags: int) | ImagePart(data: Bytes, mime: string)

  /** What the function returns or raises. */
  datatype TaggingResult =
    | Raised(message: string)                                // an exception escapes
    | ErrorDict(error: string, rawResponse: Option<string>)  // {"error": ..., ["raw_response": ...]}
    | Batch(batchResults: Json, imagePaths: seq<string>)     // {"batch_results": ..., "image_paths": ...}

  const MissingKeyMessage := "API key must be provided or set as GOOGLE_API_KEY environment variable"
  const NoValidImagesMessage := "No valid images provided"
  const EmptyResponseMessage := "Empty response from API"
  const JsonErrorPrefix := "Failed to parse JSON response: "
  const DefaultMime := "image/jpeg"

  /** `os.path.join("images", p)`: an absolute `p` replaces the directory. */
  function ImagesPath(p: string): (full: string)
    ensures StartsWith(p, "/") ==> full == p
    ensures !StartsWith(p, "/") ==> full == "images/" + p
  {
    if StartsWith(p, "/") then p else "images/" + p
  }

  /** `a, b = s.split(c, 1)`: None when `c` does not occur, which makes the
      unpacking raise. */
  function SplitOnce(s: string, c: char): (r: Option<(string, string)>)
    ensures r.None? <==> c !in s
    ensures r.Some? ==> s == r.value.0 + [c] + r.value.1 && c !in r.value.0
  {
    if c in s then
      var i := IndexOf(s, c);
      assert s == s[..i] + [c] + s[i + 1..];
      Some((s[..i], s[i + 1..]))
    else None
  }

  /** `s.split(c, 1)[0]`: the text before the first `c`, or all of `s`. */
  function BeforeFirst(s: string, c: char): (r: string)
    ensures c !in r
    ensures c in s ==> exists t :: s == r + [c] + t
    ensures c !in s ==> r == s
  {
    var parts := SplitOnce(s, c);
    if parts.Some? then parts.value.0 else s
  }

  /** The mime type and base64 text of a file's stripped content. A data
      URL `data:<mime>;...,<data>` is split at its first comma, and its
      mime type is the header text between the first `:` and the first
      `;`; a data URL without a comma is None (the image is dropped). Any
      other content is the data itself, as JPEG. */
  function ParseContent(content: string): (r: Option<(string, string)>)
    ensures !StartsWith(content, "data:") ==> r == Some((DefaultMime, content))
    ensures StartsWith(content, "data:") ==> (r.None? <==> ',' !in content)
  {
    if StartsWith(content, "data:") then
      var parts := SplitOnce(content, ',');
      if parts.None? then None
      else
        var header := parts.value.0;
        assert header[..5] == content[..5] by {
          assert content[..5] == "data:" && ',' !in "data:";
          ShortHeader(content, parts.value.0, parts.value.1);
        }
        var afterColon := SplitOnce(header, ':');
        assert header[4] == ':';
        Some((BeforeFirst(afterColon.value.1, ';'), parts.value.1))
    else Some((DefaultMime, content))
  }

  /** A header cut at the first comma keeps the `data:` prefix. */
  lemma ShortHeader(content: string, header: string, rest: string)
    requires StartsWith(content, "data:")
    requires content == header + [','] + rest && ',' !in header
    ensures |header| >= 5 && header[..5] == content[..5]
  {
    assert content[|header|] == ',';
    assert |header| >= 5;
    assert content[..|header|] == header;
    assert content[..5] == content[..|header|][..5];
  }

  /** Splitting at the first `c` finds the first piece that lacks `c`. */
  lemma SplitOnceAt(a: string, c: char, b: string)
    requires c !in a
    ensures SplitOnce(a + [c] + b, c) == Some((a, b))
  {
    var s := a + [c] + b;
    assert s[|a|] == c;
    var i := IndexOf(s, c);
    assert i == |a|;
    assert s[..i] == a && s[i + 1..] == b;
  }

  /** A data URL's header is cut at its first comma, and the mime type is
      read from the header after `data:`. */
  lemma ParseDataUrl(rest: string, data: string)
    requires ',' !in rest
    ensures ParseContent("data:" + rest + [','] + data) == Some((BeforeFirst(rest, ';'), data))
  {
    var header := "data:" + rest;
    assert header == "data" + [':'] + rest;
    var content := header + [','] + data;
    assert content[..5] == "data:";
    SplitOnceAt(header, ',', data);
    SplitOnceAt("data", ':', rest);
  }

  /** A data URL `data:<mime>;<params>,<data>` round-trips: its mime type
      and its data come back as written. */
  lemma DataUrlRoundTrip(mime: string, params: string, data: string)
    requires ',' !in mime && ';' !in mime && ',' !in params
    ensures ParseContent("data:" + (mime + [';'] + params) + [','] + data) == Some((mime, data))
  {
    ParseDataUrl(mime + [';'] + params, data);
    SplitOnceAt(mime, ';', params);
  }

  /** One image path that loads: the file is read, its content stripped,
      parsed and base64-decoded; any failure drops the image. */
  function LoadImage(path: string, read: string -> Option<string>, decode: string -> Option<Bytes>)
    : (r: Option<Part>)
    ensures r.Some? ==> r.value.ImagePart?
    ensures read(ImagesPath(path)).None? ==> r.None?
  {
    var content := read(ImagesPath(path));
    if content.None? then None
    else
      var parsed := ParseContent(Strip(content.value));
      if parsed.None? then None
      else
        var bytes := decode(parsed.value.1);
        if bytes.None? then None else Some(ImagePart(bytes.value, parsed.value.0))
  }

  /** An image loads exactly when its file is read, its stripped content
      parses and the data decodes; the part holds the decoded bytes and the
      parsed mime type. */
  lemma LoadImageSteps(path: string, read: string -> Option<string>, decode: string -> Option<Bytes>)
    ensures LoadImage(path, read, decode).Some? <==>
      read(ImagesPath(path)).Some?
      && ParseContent(Strip(read(ImagesPath(path)).value)).Some?
      && decode(ParseContent(Strip(read(ImagesPath(path)).value)).value.1).Some?
    ensures LoadImage(path, read, decode).Some? ==>
      var parsed := ParseContent(Strip(read(ImagesPath(path)).value)).value;
      LoadImage(path, read, decode).value == ImagePart(decode(parsed.1).value, parsed.0)
  {
  }

  /** A stored data URL loads as its own mime type and decoded data. */
  lemma LoadsDataUrl(path: string, read: string -> Option<string>, decode: string -> Option<Bytes>,
                     mime: string, data: string, bytes: Bytes)
    requires ',' !in mime && ';' !in mime
    requires read(ImagesPath(path)) == Some("data:" + (mime + ";base64") + [','] + data)
    requires Strip("data:" + (mime + ";base64") + [','] + data) == "data:" + (mime + ";base64") + [','] + data
    requires decode(data) == Some(bytes)
    ensures LoadImage(path, read, decode) == Some(ImagePart(bytes, mime))
  {
    assert mime + ";base64" == mime + [';'] + "base64";
    DataUrlRoundTrip(mime, "base64", data);
  }

  /** Raw base64 content is sent whole, as JPEG. */
  lemma LoadsRawContent(path: string, read: string -> Option<string>, decode: string -> Option<Bytes>,
                        content: string, bytes: Bytes)
    requires read(ImagesPath(path)) == Some(content)
    requires !StartsWith(Strip(content), "data:")
    requires decode(Strip(content)) == Some(bytes)
    ensures LoadImage(path, read, decode) == Some(ImagePart(bytes, DefaultMime))
  {
  }

  function Loader(read: string -> Option<string>, decode: string -> Option<Bytes>): string -> Option<Part> {
    p => LoadImage(p, read, decode)
  }

  function Loads(load: string -> Option<Part>): string -> bool {
    p => load(p).Some?
  }

  /** The paths that load, in order. */
  function Kept(paths: seq<string>, load: string -> Option<Part>): (r: seq<string>)
    ensures forall p | p in r :: p in paths && load(p).Some?
    ensures forall p | p in paths && load(p).Some? :: p in r
  {
    if paths == [] then []
    else
      var last := paths[|paths| - 1];
      Kept(paths[..|paths| - 1], load) + (if load(last).Some? then [last] else [])
  }

  /** The image parts of the paths that load, in order. */
  function LoadedParts(paths: seq<string>, load: string -> Option<Part>): seq<Part> {
    if paths == [] then []
    else
      var last := paths[|paths| - 1];
      LoadedParts(paths[..|paths| - 1], load) + (if load(last).Some? then [load(last).value] else [])
  }

  /** The kept paths are the list comprehension's filter. */
  lemma {:induction false} KeptIsFilter(paths: seq<string>, load: string -> Option<Part>)
    ensures Kept(paths, load) == Filter(paths, Loads(load))
  {
    if paths != [] {
      KeptIsFilter(paths[..|paths| - 1], load);
      FilterSnoc(paths, |paths| - 1, Loads(load));
      assert paths[..|paths|] == paths;
    }
  }

  /** One part per kept path. */
  lemma {:induction false} LoadedPartsLength(paths: seq<string>, load: string -> Option<Part>)
    ensures |LoadedParts(paths, load)| == |Kept(paths, load)|
  {
    if paths != [] {
      LoadedPartsLength(paths[..|paths| - 1], load);
    }
  }

  /** Part k is what the k-th kept path loads to. */
  lemma {:induction false} LoadedPartsMatch(paths: seq<string>, load: string -> Option<Part>)
    ensures |LoadedParts(paths, load)| == |Kept(paths, load)|
    ensures forall k | 0 <= k < |Kept(paths, load)| ::
      load(Kept(paths, load)[k]) == Some(LoadedParts(paths, load)[k])
  {
    if paths != [] {
      LoadedPartsMatch(paths[..|paths| - 1], load);
    }
  }

  /** The loop that builds `parts` and `valid_images`. */
  method PrepareParts(imagePaths: seq<string>, maxTags: int, load: string -> Option<Part>)
    returns (parts: seq<Part>, valid: seq<string>)
    ensures valid == Kept(imagePaths, load) == Filter(imagePaths, Loads(load))
    ensures parts == [PromptPart(|imagePaths|, maxTags)] + LoadedParts(imagePaths, load)
    ensures |parts| == 1 + |valid| && parts[0] == PromptPart(|imagePaths|, maxTags)
    ensures parts[1..] == LoadedParts(imagePaths, load)
  {
    parts := [PromptPart(|imagePaths|, maxTags)];
    valid := [];
    var i := 0;
    while i < |imagePaths|
      invariant 0 <= i <= |imagePaths|
      invariant valid == Kept(imagePaths[..i], load)
      invariant parts == [PromptPart(|imagePaths|, maxTags)] + LoadedParts(imagePaths[..i], load)
    {
      var imgPath := imagePaths[i];
      var part := load(imgPath);
      assert imagePaths[..i + 1][..i] == imagePaths[..i];
      if part.Some? {
        parts := parts + [part.value];
        valid := valid + [imgPath];
      }
      i := i + 1;
    }
    assert imagePaths[..i] == imagePaths;
    KeptIsFilter(imagePaths, load);
    LoadedPartsLength(imagePaths, load);
  }

  /** `.replace("```json", "").replace("```", "").strip()`. */
  function CleanResponse(text: string): (r: string)
    ensures !Contains(r, Fence)
    ensures r == Strip(r)
  {
    var unfenced := ReplaceAll(ReplaceAll(text, "```json", ""), Fence, "");
    FenceRemoval(ReplaceAll(text, "```json", ""));
    StripNoFence(unfenced);
    StripIdempotent(unfenced);
    Strip(unfenced)
  }

  /** Stripping keeps a text free of fences. */
  lemma StripNoFence(s: string)
    requires !Contains(s, Fence)
    ensures !Contains(Strip(s), Fence)
  {
    var r := Strip(s);
    var i :| 0 <= i <= |s| - |r| && OccursAt(s, r, i);
    OccursNoFence(s, r, i);
  }

  /** The whole function. `generate` is the model call (Failure for an
      exception, and `Some` for the response text when there is one), and
      `parseJson` is `json.loads`. `request` is the request sent to the
      model, None when it is not called. */
  method GetImageTagsBatchAsParts(apiKey: Option<string>, imagePaths: seq<string>,
                                  read: string -> Option<string>, decode: string -> Option<Bytes>,
                                  generate: seq<Part> -> Result<Option<string>, string>,
                                  parseJson: string -> Result<Json, string>, maxTags: int := 20)
    returns (r: TaggingResult, request: Option<seq<Part>>)
    ensures apiKey.None? || apiKey.value == "" ==> r == Raised(MissingKeyMessage) && request.None?
    ensures r.Raised? ==> r.message == MissingKeyMessage
    ensures (apiKey.Some? && apiKey.value != "" && Filter(imagePaths, Loads(Loader(read, decode))) == [])
            ==> r == ErrorDict(NoValidImagesMessage, None) && request.None?
    ensures request.Some? ==> |request.value| == 1 + |Filter(imagePaths, Loads(Loader(read, decode)))|
    ensures request.Some? ==> request.value[0] == PromptPart(|imagePaths|, maxTags)
    ensures request.Some? ==> request.value[1..] == LoadedParts(imagePaths, Loader(read, decode))
    ensures request.Some? ==> match generate(request.value)
      case Failure(e) => r == ErrorDict(e, None)
      case Success(text) =>
        if text.None? || text.value == "" then r == ErrorDict(EmptyResponseMessage, None)
        else match parseJson(CleanResponse(text.value))
          case Failure(e) => r == ErrorDict(JsonErrorPrefix + e, text)
          case Success(j) => r == Batch(j, Filter(imagePaths, Loads(Loader(read, decode))))
    ensures r.Batch? ==> r.imagePaths == Filter(imagePaths, Loads(Loader(read, decode))) && request.Some?
  {
    if apiKey.None? || apiKey.value == "" {
      return Raised(MissingKeyMessage), None;
    }
    var parts, validImages := PrepareParts(imagePaths, maxTags, Loader(read, decode));
    if |parts| <= 1 {
      return ErrorDict(NoValidImagesMessage, None), None;
    }
    request := Some(parts);
    var response := generate(parts);
    if response.Failure? {
      return ErrorDict(response.error, None), request;
    }
    var responseText := response.value;
    if responseText.None? || responseText.value == "" {
      return ErrorDict(EmptyResponseMessage, None), request;
    }
    var batchResults := parseJson(CleanResponse(responseText.value));
    if batchResults.Failure? {
      return ErrorDict(JsonErrorPrefix + batchResults.error, responseText), request;
    }
    r := Batch(batchResults.value, validImages);
  }

  /** The paths reported back are exactly the ones whose image loaded, in
      the order asked for; every path that fails to load is left out. */
  lemma ReportedPathsAreLoaded(imagePaths: seq<string>, read: string -> Option<string>,
                               decode: string -> Option<Bytes>, p: string)
    requires p in imagePaths
    ensures p in Filter(imagePaths, Loads(Loader(read, decode))) <==> LoadImage(p, read, decode).Some?
  {
  }
}
