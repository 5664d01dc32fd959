/**
 * `analyze_item_images`: ask the vision service for a title and description for a batch
 * of uploaded images, skipping the call when it is not configured or there is nothing to
 * send, and answering `{}` whenever the call fails.
 */
module Services {

  import opened Wrappers
  import opened Text

  const DefaultEndpoint: string := "https://api.openai.com/v1/lost-and-found/analyze"
  const TimeoutSeconds: nat := 20
  const ImagesField: string := "images"
  const DefaultPartName: string := "image"
  const DefaultContentType: string := "application/octet-stream"

  /** How a setting is found by `getattr(settings, name, default)`. */
  datatype Setting = Unset | SetToNone | SetTo(value: string)

  /**
   * The two settings read. A missing or null API key both read as no key; the endpoint is
   * kept as found, since a null endpoint is not replaced by the default.
   */
  datatype Settings = Settings(apiKey: Option<string>, endpoint: Setting)

  /** `not api_key` fails: the feature is switched on. */
  predicate HasApiKey(s: Settings) {
    s.apiKey.Some? && s.apiKey.value != ""
  }

  /**
   * The URL handed to `requests.post`: the default when the setting is missing, the
   * setting's value otherwise; `None` when the setting is null.
   */
  function EndpointOf(s: Settings): Option<string> {
    match s.endpoint
    case Unset => Some(DefaultEndpoint)
    case SetToNone => None
    case SetTo(url) => Some(url)
  }

  /**
   * Names an exception class may not take as `OtherError`: the three named kinds and the
   * built-in subclasses and aliases of `OSError` (`io.UnsupportedOperation` among them).
   * An exception of a subclass of `AttributeError` or `OSError`, user-defined ones included,
   * is written as that base kind, since `except (AttributeError, OSError)` catches it.
   */
  const ReservedErrorNames: set<string> :=
    {"AttributeError", "OSError", "ValueError", "IOError", "EnvironmentError", "UnsupportedOperation",
     "BlockingIOError", "ChildProcessError", "ConnectionError", "BrokenPipeError",
     "ConnectionAbortedError", "ConnectionRefusedError", "ConnectionResetError", "FileExistsError",
     "FileNotFoundError", "InterruptedError", "IsADirectoryError", "NotADirectoryError",
     "PermissionError", "ProcessLookupError", "TimeoutError"}

  type OtherErrorName = name: string | name !in ReservedErrorNames witness "KeyError"

  /** The exceptions that matter here; the others, none of them caught, are `OtherError`. */
  datatype ErrorKind = AttributeError | OSError | ValueError | OtherError(name: OtherErrorName)

  /** The `except (AttributeError, OSError)` around `seek(0)`. */
  predicate Swallowed(e: ErrorKind) {
    e.AttributeError? || e.OSError?
  }

  /** What `f.seek(0)` does. */
  datatype SeekBehaviour = Rewinds | Raises(error: ErrorKind)

  /**
   * An uploaded file object. `truthy` is `bool(f)`; `name` and `contentType` are `None`
   * when the object has no such attribute; `position` is its stream position.
   */
  class UploadedFile {
    const truthy: bool
    const name: Option<string>
    const contentType: Option<string>
    const seekBehaviour: SeekBehaviour
    var position: nat

    constructor (truthy: bool, name: Option<string>, contentType: Option<string>, seekBehaviour: SeekBehaviour, position: nat)
      ensures this.truthy == truthy && this.name == name && this.contentType == contentType
      ensures this.seekBehaviour == seekBehaviour && this.position == position
    {
      this.truthy := truthy;
      this.name := name;
      this.contentType := contentType;
      this.seekBehaviour := seekBehaviour;
      this.position := position;
    }
  }

  /** One entry of `multipart_files`: `("images", (name, f, content_type))`. */
  datatype Part = Part(field: string, filename: string, file: UploadedFile, contentType: string)

  /** The one `requests.post` the function may make (the prompt text is not modelled). */
  datatype Request = Request(url: string, headers: map<string, string>, files: seq<Part>, timeout: nat)

  /**
   * The decoded JSON object as the function reads it: the values under "title" and
   * "description", `None` where the key is absent.
   */
  datatype Payload = Payload(title: Option<string>, description: Option<string>)

  /**
   * How the POST went: `Failed` when `post`, `raise_for_status` or `json` raises;
   * otherwise the decoded body, `None` for JSON `null`.
   */
  datatype HttpOutcome = Failed | Succeeded(body: Option<Payload>)

  /**
   * What the function returns: `{}` (`NoSuggestion`), or the dictionary with exactly the
   * keys "title" and "description".
   */
  datatype Suggestions = NoSuggestion | Suggested(title: string, description: string)

  /** The dictionary a `Suggestions` value stands for. */
  function AsDict(s: Suggestions): (d: map<string, string>)
    ensures s.NoSuggestion? ==> d == map[]
    ensures s.Suggested? ==> d.Keys == {"title", "description"} && d["title"] == s.title && d["description"] == s.description
  {
    match s
    case NoSuggestion => map[]
    case Suggested(title, description) =>
      assert "title" != "description" by { assert |"title"| != |"description"|; }
      map["title" := title, "description" := description]
  }

  /** A Python call: it returns a value or raises. */
  datatype Call<T> = Returned(value: T) | Raised(error: ErrorKind)

  /** `list(files or [])` */
  function Listed(files: Option<seq<UploadedFile?>>): seq<UploadedFile?> {
    files.GetOr([])
  }

  predicate IsTruthy(f: UploadedFile?) {
    f != null && f.truthy
  }

  /** A truthy file whose `seek(0)` raises something the handler does not catch. */
  predicate Escapes(f: UploadedFile?) {
    f != null && f.truthy && f.seekBehaviour.Raises? && !Swallowed(f.seekBehaviour.error)
  }

  function PartFor(f: UploadedFile): (p: Part)
    ensures p.field == "images" && p.file == f
    ensures p.filename == (if f.name.Some? then f.name.value else "image")
    ensures p.contentType == (if f.contentType.Some? then f.contentType.value else "application/octet-stream")
  {
    Part(ImagesField, f.name.GetOr(DefaultPartName), f, f.contentType.GetOr(DefaultContentType))
  }

  /** The parts built for `files`: one for each truthy entry, in order; falsy entries are skipped. */
  function PartsOf(files: seq<UploadedFile?>): (r: seq<Part>)
    ensures |r| <= |files|
  {
    if files == [] then []
    else
      var last := files[|files| - 1];
      PartsOf(files[..|files| - 1]) + (if last != null && last.truthy then [PartFor(last)] else [])
  }

  /** Every part is an "images" part for a truthy file of the input, with the defaults filled in. */
  lemma {:induction false} PartsShape(files: seq<UploadedFile?>)
    ensures forall p :: p in PartsOf(files) ==> p.field == "images" && p.file in files && IsTruthy(p.file) && p == PartFor(p.file)
  {
    if files != [] {
      var init := files[..|files| - 1];
      PartsShape(init);
      assert forall f :: f in init ==> f in files;
    }
  }

  function CountTruthy(files: seq<UploadedFile?>): nat {
    if files == [] then 0
    else CountTruthy(files[..|files| - 1]) + (if IsTruthy(files[|files| - 1]) then 1 else 0)
  }

  lemma PartsOfSnoc(files: seq<UploadedFile?>, f: UploadedFile?)
    ensures PartsOf(files + [f]) == PartsOf(files) + (if IsTruthy(f) then [PartFor(f)] else [])
    ensures CountTruthy(files + [f]) == CountTruthy(files) + (if IsTruthy(f) then 1 else 0)
  {
    assert (files + [f])[..|files|] == files;
  }

  /** One part per truthy file. */
  lemma {:induction false} PartsCount(files: seq<UploadedFile?>)
    ensures |PartsOf(files)| == CountTruthy(files)
  {
    if files != [] {
      PartsCount(files[..|files| - 1]);
    }
  }

  /** The parts of a prefix of the files are a prefix of the parts. */
  lemma {:induction false} PartsOfPrefix(files: seq<UploadedFile?>, i: nat)
    requires i <= |files|
    ensures PartsOf(files[..i]) <= PartsOf(files)
  {
    if i < |files| {
      var init := files[..|files| - 1];
      assert files[..i] == init[..i];
      PartsOfPrefix(init, i);
    } else {
      assert files[..i] == files;
    }
  }

  /**
   * In input order: the part of the truthy file at index `i` comes right after one part
   * for each truthy file before it.
   */
  lemma PartsInOrder(files: seq<UploadedFile?>, i: nat)
    requires i < |files| && IsTruthy(files[i])
    ensures CountTruthy(files[..i]) < |PartsOf(files)|
    ensures PartsOf(files)[CountTruthy(files[..i])] == PartFor(files[i])
  {
    assert files[..i + 1] == files[..i] + [files[i]];
    PartsOfSnoc(files[..i], files[i]);
    PartsCount(files[..i]);
    PartsOfPrefix(files, i + 1);
  }

  /** The index of the first file whose `seek(0)` escapes, if any. */
  function FirstEscape(files: seq<UploadedFile?>): (r: Option<nat>)
    ensures r.Some? ==> r.value < |files| && Escapes(files[r.value])
    ensures forall j :: 0 <= j < |files| && (r.None? || j < r.value) ==> !Escapes(files[j])
  {
    if files == [] then None
    else if Escapes(files[0]) then Some(0)
    else match FirstEscape(files[1..])
      case None => None
      case Some(k) => Some(k + 1)
  }

  /** `payload.get(key) or ""` on the value found under one key. */
  function OrEmpty(value: Option<string>): string {
    if value.Some? && value.value != "" then value.value else ""
  }

  /** `{"title": ..., "description": ...}` from the response body (`response.json() or {}`). */
  function Shape(body: Option<Payload>): (r: Suggestions)
    ensures r.Suggested? && Trimmed(r.title) && Trimmed(r.description)
  {
    var payload := body.GetOr(Payload(None, None));
    Suggested(Strip(OrEmpty(payload.title)), Strip(OrEmpty(payload.description)))
  }

  /**
   * Each field is the stripped value the service sent for it, or "" when the body is `null`
   * or lacks the key.
   */
  lemma ShapeFields(body: Option<Payload>)
    ensures body.None? || body.value.title.None? ==> Shape(body).title == ""
    ensures body.None? || body.value.description.None? ==> Shape(body).description == ""
    ensures body.Some? && body.value.title.Some? ==> Shape(body).title == Strip(body.value.title.value)
    ensures body.Some? && body.value.description.Some? ==> Shape(body).description == Strip(body.value.description.value)
  {
    StripTrimmed("");
  }

  /** A JSON `null` body gives two empty strings. */
  lemma ShapeOfNull()
    ensures Shape(None) == Suggested("", "")
  {
    ShapeFields(None);
  }

  /** Values without surrounding whitespace come back unchanged. */
  lemma ShapeOfTrimmed(title: string, description: string)
    requires Trimmed(title) && Trimmed(description)
    ensures Shape(Some(Payload(Some(title), Some(description)))) == Suggested(title, description)
  {
    ShapeFields(Some(Payload(Some(title), Some(description))));
    StripTrimmed(title);
    StripTrimmed(description);
  }

  /** Whitespace around a description is removed and the description kept. */
  lemma ShapeOfPadded(title: string, description: string, before: string, after: string)
    requires Trimmed(title) && Trimmed(description) && AllSpace(before) && AllSpace(after)
    ensures Shape(Some(Payload(Some(title), Some(before + description + after)))) == Suggested(title, description)
  {
    ShapeFields(Some(Payload(Some(title), Some(before + description + after))));
    StripTrimmed(title);
    StripUnique(before, description, after);
  }

  /** The service's answer for the umbrella photo comes back with its whitespace trimmed. */
  lemma ShapeTrimsExample(title: string, description: string)
    requires title == "Black Umbrella" && description == "A compact black umbrella"
    ensures Shape(Some(Payload(Some(title), Some(" " + description + " ")))) == Suggested(title, description)
  {
    assert title[0] == 'B' && title[|title| - 1] == 'a';
    assert description[0] == 'A' && description[|description| - 1] == 'a';
    assert AllSpace(" ");
    ShapeOfPadded(title, description, " ", " ");
  }

  function RequestFor(settings: Settings, parts: seq<Part>): Request
    requires HasApiKey(settings) && EndpointOf(settings).Some?
  {
    Request(EndpointOf(settings).value, map["Authorization" := "Bearer " + settings.apiKey.value], parts, TimeoutSeconds)
  }

  /**
   * What the function returns, and the request it sends (at most one). A null endpoint
   * makes `requests.post` raise inside the `try` before anything is sent, so the answer
   * is `{}`.
   */
  function Suggestion(settings: Settings, files: Option<seq<UploadedFile?>>, post: Request -> HttpOutcome)
    : (r: (Call<Suggestions>, Option<Request>))
    ensures !HasApiKey(settings) || Listed(files) == [] ==> r == (Returned(NoSuggestion), None)
    ensures r.0.Raised? <==> HasApiKey(settings) && Listed(files) != [] && FirstEscape(Listed(files)).Some?
    ensures r.0.Raised? ==>
      && r.1.None? && !Swallowed(r.0.error)
      && r.0.error == Listed(files)[FirstEscape(Listed(files)).value].seekBehaviour.error
    ensures r.1.Some? <==>
      HasApiKey(settings) && FirstEscape(Listed(files)).None? && PartsOf(Listed(files)) != [] && EndpointOf(settings).Some?
    ensures r.1.Some? ==>
      && r.1.value.url == EndpointOf(settings).value
      && r.1.value.headers == map["Authorization" := "Bearer " + settings.apiKey.value]
      && r.1.value.timeout == 20 && r.1.value.files == PartsOf(Listed(files))
    ensures r.1.Some? ==>
      r.0 == match post(r.1.value) case Failed => Returned(NoSuggestion) case Succeeded(body) => Returned(Shape(body))
    ensures r.1.None? && r.0.Returned? ==> r.0.value == NoSuggestion
  {
    if !HasApiKey(settings) then (Returned(NoSuggestion), None)
    else
      var list := Listed(files);
      if list == [] then (Returned(NoSuggestion), None)
      else match FirstEscape(list)
        case Some(i) => (Raised(list[i].seekBehaviour.error), None)
        case None =>
          var parts := PartsOf(list);
          if parts == [] then (Returned(NoSuggestion), None)
          else if EndpointOf(settings).None? then (Returned(NoSuggestion), None)
          else
            var request := RequestFor(settings, parts);
            match post(request)
            case Failed => (Returned(NoSuggestion), Some(request))
            case Succeeded(body) => (Returned(Shape(body)), Some(request))
  }

  /** When every entry is falsy nothing is sent and the answer is `{}`. */
  lemma {:induction false} OnlyFalsyFilesSendNothing(settings: Settings, files: seq<UploadedFile?>, post: Request -> HttpOutcome)
    requires forall j :: 0 <= j < |files| ==> !IsTruthy(files[j])
    ensures Suggestion(settings, Some(files), post) == (Returned(NoSuggestion), None)
  {
    NoTruthyNoParts(files);
  }

  lemma {:induction false} NoTruthyNoParts(files: seq<UploadedFile?>)
    requires forall j :: 0 <= j < |files| ==> !IsTruthy(files[j])
    ensures PartsOf(files) == []
  {
    if files != [] {
      NoTruthyNoParts(files[..|files| - 1]);
    }
  }

  /** A failed call, whatever the reason, answers `{}` after its one request. */
  lemma FailureIsEmpty(settings: Settings, files: Option<seq<UploadedFile?>>, post: Request -> HttpOutcome)
    requires Suggestion(settings, files, post).1.Some?
    requires post(Suggestion(settings, files, post).1.value) == Failed
    ensures Suggestion(settings, files, post).0 == Returned(NoSuggestion)
  {
  }

  /**
   * `requests.post(None, ...)` raises inside the `try`, so a null endpoint setting sends
   * nothing and answers `{}` unless a `seek` escaped first; a missing setting posts to the
   * default endpoint, and a set one to its value.
   */
  lemma EndpointRule(settings: Settings, files: Option<seq<UploadedFile?>>, post: Request -> HttpOutcome)
    ensures var r := Suggestion(settings, files, post);
      && (settings.endpoint.SetToNone? ==> r.1.None? && (r.0.Raised? || r.0 == Returned(NoSuggestion)))
      && (settings.endpoint.Unset? && r.1.Some? ==> r.1.value.url == DefaultEndpoint)
      && (settings.endpoint.SetTo? && r.1.Some? ==> r.1.value.url == settings.endpoint.value)
  {
  }

  /** `f` is a truthy file whose `seek(0)` rewinds it. */
  predicate RewindsOnSeek(f: UploadedFile?) {
    f != null && f.truthy && f.seekBehaviour.Rewinds?
  }

  /** The files among the first `n` entries that the loop rewinds. */
  ghost function RewoundAmong(files: seq<UploadedFile?>, n: nat): set<UploadedFile>
    requires n <= |files|
  {
    if n == 0 then {}
    else
      var f := files[n - 1];
      RewoundAmong(files, n - 1) + (if RewindsOnSeek(f) then {f as UploadedFile} else {})
  }

  /** Only files from the list are rewound. */
  lemma {:induction false} RewoundAmongIn(files: seq<UploadedFile?>, n: nat)
    requires n <= |files|
    ensures forall f :: f in RewoundAmong(files, n) ==> f in files
  {
    if n > 0 {
      RewoundAmongIn(files, n - 1);
    }
  }

  /** The files the call rewinds: those reached before the call returns or raises. */
  ghost predicate Rewound(settings: Settings, files: Option<seq<UploadedFile?>>, f: UploadedFile) {
    var list := Listed(files);
    HasApiKey(settings) && f in RewoundAmong(list, FirstEscape(list).GetOr(|list|))
  }

  /** The file objects the call may touch. */
  ghost function Objects(files: Option<seq<UploadedFile?>>): set<UploadedFile> {
    set f: UploadedFile | f in Listed(files)
  }

  /** The parts built for the first `n` entries. */
  function PartsAmong(list: seq<UploadedFile?>, n: nat): seq<Part>
    requires n <= |list|
  {
    if n == 0 then [] else PartsAmong(list, n - 1) + (if IsTruthy(list[n - 1]) then [PartFor(list[n - 1])] else [])
  }

  /** Counting entries by index builds the parts of the prefix. */
  lemma {:induction false} PartsAmongPrefix(list: seq<UploadedFile?>, n: nat)
    requires n <= |list|
    ensures PartsAmong(list, n) == PartsOf(list[..n])
  {
    if n > 0 {
      PartsAmongPrefix(list, n - 1);
      assert list[..n] == list[..n - 1] + [list[n - 1]];
      PartsOfSnoc(list[..n - 1], list[n - 1]);
    }
  }

  /** Reaching entry `i` with no earlier escape: it either escapes first or the loop goes on. */
  lemma {:induction false} EscapeStep(list: seq<UploadedFile?>, i: nat)
    requires i < |list| && i <= FirstEscape(list).GetOr(|list|)
    ensures Escapes(list[i]) ==> FirstEscape(list) == Some(i)
    ensures !Escapes(list[i]) ==> i + 1 <= FirstEscape(list).GetOr(|list|)
  {
  }

  /**
   * One pass of the loop body for the entry `f`: nothing for a falsy entry; otherwise
   * its content type, `f.seek(0)` (which may escape), and its part.
   */
  method AddPart(f: UploadedFile?) returns (part: seq<Part>, escape: Option<ErrorKind>)
    modifies f
    ensures escape == if Escapes(f) then Some(f.seekBehaviour.error) else None
    ensures escape.None? ==> part == if IsTruthy(f) then [PartFor(f)] else []
    ensures f != null ==> f.position == if RewindsOnSeek(f) then 0 else old(f.position)
  {
    part := [];
    escape := None;
    if f != null && f.truthy {
      var contentType := f.contentType.GetOr(DefaultContentType);
      if f.seekBehaviour.Raises? && !Swallowed(f.seekBehaviour.error) {
        return part, Some(f.seekBehaviour.error);
      }
      if f.seekBehaviour.Rewinds? {
        f.position := 0;
      }
      part := [Part(ImagesField, f.name.GetOr(DefaultPartName), f, contentType)];
    }
  }

  /**
   * The `for f in files` loop: skip falsy entries, rewind the others, and build their parts.
   * `escape` is the exception that leaves the loop, if one does.
   */
  method BuildMultipart(list: seq<UploadedFile?>) returns (multipartFiles: seq<Part>, escape: Option<ErrorKind>)
    modifies set f: UploadedFile | f in list
    ensures escape == (match FirstEscape(list) case None => None case Some(i) => Some(list[i].seekBehaviour.error))
    ensures escape.None? ==> multipartFiles == PartsOf(list)
    ensures forall f: UploadedFile | f in list ::
      f.position == if f in RewoundAmong(list, FirstEscape(list).GetOr(|list|)) then 0 else old(f.position)
  {
    multipartFiles := [];
    var i := 0;
    while i < |list|
      invariant 0 <= i <= |list|
      invariant multipartFiles == PartsAmong(list, i)
      invariant i <= FirstEscape(list).GetOr(|list|)
      invariant forall f: UploadedFile | f in list :: f.position == if f in RewoundAmong(list, i) then 0 else old(f.position)
    {
      var f := list[i];
      EscapeStep(list, i);
      var part, e := AddPart(f);
      if e.Some? {
        return multipartFiles, e;
      }
      multipartFiles := multipartFiles + part;
      i := i + 1;
    }
    PartsAmongPrefix(list, i);
    assert list[..i] == list;
    escape := None;
  }

  method AnalyzeItemImages(settings: Settings, files: Option<seq<UploadedFile?>>, post: Request -> HttpOutcome)
    returns (r: Call<Suggestions>, sent: Option<Request>)
    modifies Objects(files)
    ensures (r, sent) == Suggestion(settings, files, post)
    ensures forall f :: f in Objects(files) ==> f.position == if Rewound(settings, files, f) then 0 else old(f.position)
  {
    if !HasApiKey(settings) {
      return Returned(NoSuggestion), None;
    }
    var list := Listed(files);
    if list == [] {
      return Returned(NoSuggestion), None;
    }
    var multipartFiles, escape := BuildMultipart(list);
    if escape.Some? {
      return Raised(escape.value), None;
    }
    if multipartFiles == [] {
      return Returned(NoSuggestion), None;
    }
    // `requests.post(None, ...)` raises before sending; the `except` answers `{}`.
    if EndpointOf(settings).None? {
      return Returned(NoSuggestion), None;
    }
    var request := RequestFor(settings, multipartFiles);
    match post(request) {
      case Failed =>
        return Returned(NoSuggestion), Some(request);
      case Succeeded(payload) =>
        return Returned(Shape(payload)), Some(request);
    }
  }
}
