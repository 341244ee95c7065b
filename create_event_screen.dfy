/**
 * The event creation screen (frontend/screens/CreateEventScreen.js): the three syntactic
 * checks run when CREATE is pressed, the choice between a JSON body and a multipart body
 * carrying the picked image, the attachment's file name and MIME type, and the handling of
 * the response, with the `loading` flag that disables the button while a request is out.
 */
module CreateEventScreen {
  import opened Wrappers
  import opened Strings
  import opened JsValues

  /** The image picked from the library: `{ uri, width, height }`. */
  datatype PickedImage = PickedImage(uri: string, width: int, height: int)

  /** What the form holds when CREATE is pressed. */
  datatype Draft = Draft(
    title: string, date: string, time: string, location: string, description: string,
    image: Option<PickedImage>)

  // ---------------------------------------------------------------------------------------
  // The date and time checks: anchored regular expressions made of fixed-width items.

  datatype PatternItem = AnyDigit | Literal(c: char)

  /** `\d` matches an ASCII digit; any other item matches its own character. */
  predicate ItemMatches(item: PatternItem, c: char) {
    match item
    case AnyDigit => IsDigit(c)
    case Literal(l) => c == l
  }

  /** `/^p$/.test(s)` for a pattern `p` that is a sequence of single-character items. */
  predicate FullMatch(pattern: seq<PatternItem>, s: string)
    decreases pattern
  {
    if |pattern| == 0 then |s| == 0
    else |s| > 0 && ItemMatches(pattern[0], s[0]) && FullMatch(pattern[1..], s[1..])
  }

  /** Such a pattern matches exactly the strings of its length that agree with it position by
      position. */
  lemma {:induction false} FullMatchPointwise(pattern: seq<PatternItem>, s: string)
    ensures FullMatch(pattern, s) <==>
      |s| == |pattern| && forall i | 0 <= i < |s| :: ItemMatches(pattern[i], s[i])
  {
    if |pattern| > 0 && |s| > 0 {
      FullMatchPointwise(pattern[1..], s[1..]);
      if |s| == |pattern| && forall i | 0 <= i < |s| :: ItemMatches(pattern[i], s[i]) {
        forall i | 0 <= i < |s| - 1 ensures ItemMatches(pattern[1..][i], s[1..][i]) {
          assert ItemMatches(pattern[i + 1], s[i + 1]);
        }
      }
      if FullMatch(pattern, s) {
        forall i | 0 <= i < |s| ensures ItemMatches(pattern[i], s[i]) {
          if i > 0 { assert ItemMatches(pattern[1..][i - 1], s[1..][i - 1]); }
        }
      }
    }
  }

  /** `^\d{4}-\d{2}-\d{2}$` */
  const DatePattern: seq<PatternItem> :=
    [AnyDigit, AnyDigit, AnyDigit, AnyDigit, Literal('-'), AnyDigit, AnyDigit, Literal('-'),
     AnyDigit, AnyDigit]

  /** `^\d{2}:\d{2}$` */
  const TimePattern: seq<PatternItem> := [AnyDigit, AnyDigit, Literal(':'), AnyDigit, AnyDigit]

  predicate IsDateText(s: string) {
    FullMatch(DatePattern, s)
  }

  predicate IsTimeText(s: string) {
    FullMatch(TimePattern, s)
  }

  /** The date check passes exactly for four digits, `-`, two digits, `-`, two digits. */
  lemma DateTextShape(s: string)
    ensures IsDateText(s) <==>
      && |s| == 10
      && IsDigit(s[0]) && IsDigit(s[1]) && IsDigit(s[2]) && IsDigit(s[3]) && s[4] == '-'
      && IsDigit(s[5]) && IsDigit(s[6]) && s[7] == '-' && IsDigit(s[8]) && IsDigit(s[9])
  {
    FullMatchPointwise(DatePattern, s);
    if |s| == 10 {
      assert forall i | 0 <= i < 10 ::
        ItemMatches(DatePattern[i], s[i]) <==> (if i == 4 || i == 7 then s[i] == '-' else IsDigit(s[i]));
    }
  }

  /** The time check passes exactly for two digits, `:`, two digits. */
  lemma TimeTextShape(s: string)
    ensures IsTimeText(s) <==>
      |s| == 5 && IsDigit(s[0]) && IsDigit(s[1]) && s[2] == ':' && IsDigit(s[3]) && IsDigit(s[4])
  {
    FullMatchPointwise(TimePattern, s);
    if |s| == 5 {
      assert forall i | 0 <= i < 5 ::
        ItemMatches(TimePattern[i], s[i]) <==> (if i == 2 then s[i] == ':' else IsDigit(s[i]));
    }
  }

  /** The checks are syntactic only: an impossible calendar date or clock time passes, and a
      date without leading zeros does not. */
  lemma NoRangeChecks()
    ensures IsDateText("2024-02-30") && IsDateText("2024-13-40")
    ensures IsTimeText("99:99")
    ensures !IsDateText("2024-2-30") && !IsTimeText("9:30")
  {
    DateTextShape("2024-02-30");
    DateTextShape("2024-13-40");
    TimeTextShape("99:99");
    DateTextShape("2024-2-30");
    TimeTextShape("9:30");
  }

  // ---------------------------------------------------------------------------------------
  // Validation.

  const TitleRequired := "Please enter an event name."
  const DateFormatRequired := "Please enter date as YYYY-MM-DD."
  const TimeFormatRequired := "Please enter time as HH:MM (24h)."

  /** The message of the first failing check, in the order title, date, time; `None` when all
      three pass. A title counts as missing when it is empty or whitespace only. */
  function ValidationFailure(d: Draft): (r: Option<string>)
    ensures r == Some(TitleRequired) <==> AllWhitespace(d.title)
    ensures r == Some(DateFormatRequired) <==> !AllWhitespace(d.title) && !IsDateText(d.date)
    ensures r == Some(TimeFormatRequired) <==>
      !AllWhitespace(d.title) && IsDateText(d.date) && !IsTimeText(d.time)
    ensures r == None <==> !AllWhitespace(d.title) && IsDateText(d.date) && IsTimeText(d.time)
  {
    TrimEmptyIffAllWhitespace(d.title);
    if Trim(d.title) == "" then Some(TitleRequired)
    else if !IsDateText(d.date) then Some(DateFormatRequired)
    else if !IsTimeText(d.time) then Some(TimeFormatRequired)
    else None
  }

  // ---------------------------------------------------------------------------------------
  // The attachment's file name and MIME type.

  const PlaceholderFileName := "event.jpg"

  /** The attachment's file name: the last `/`-separated segment of the URI, or the placeholder
      name when that segment is empty. */
  function AttachmentName(uri: string): (name: string)
    ensures name != "" && '/' !in name
  {
    LastPartIsMaximalSuffix(uri, '/');
    var last := LastPart(uri, '/');
    if last == "" then PlaceholderFileName else last
  }

  /** The file name is the last `/`-separated segment of the URI: the longest suffix without a
      `/`. When that segment is empty (an empty URI or one ending in `/`) it is `event.jpg`. */
  lemma AttachmentNameIsLastSegment(uri: string)
    ensures var name := AttachmentName(uri);
      && name != "" && '/' !in name
      && ((uri == "" || uri[|uri| - 1] == '/') ==> name == PlaceholderFileName)
      && (!(uri == "" || uri[|uri| - 1] == '/') ==>
            && |name| <= |uri| && uri[|uri| - |name|..] == name
            && (|name| < |uri| ==> uri[|uri| - |name| - 1] == '/'))
  {
    LastPartIsMaximalSuffix(uri, '/');
  }

  /** The lower-cased text after the last dot of the file name (the whole name when it has no
      dot); the split always has a last part, so the optional chain never stops. */
  function AttachmentExtension(fileName: string): (ext: string)
    ensures |ext| <= |fileName| && '.' !in ext
  {
    LastPartIsMaximalSuffix(fileName, '.');
    AsciiLower(LastPart(fileName, '.'))
  }

  /** `png` and `webp` select their own types; anything else is sent as JPEG. */
  function MimeType(fileName: string): (mime: string)
    ensures mime in {"image/png", "image/webp", "image/jpeg"}
  {
    var ext := AttachmentExtension(fileName);
    if ext == "png" then "image/png" else if ext == "webp" then "image/webp" else "image/jpeg"
  }

  /** The extension of `stem.ext` is `ext` lower-cased, whatever the stem holds, dots included. */
  lemma ExtensionAfterLastDot(stem: string, ext: string)
    requires '.' !in ext
    ensures AttachmentExtension(stem + "." + ext) == AsciiLower(ext)
  {
    var s := stem + "." + ext;
    LastPartIsMaximalSuffix(s, '.');
    var r := LastPart(s, '.');
    assert s[|s| - |ext|..] == ext;
    assert s[|s| - |ext| - 1] == '.';
    assert r == ext;
  }

  /** A name without a dot is its own extension, so a file called `png` is sent as PNG. */
  lemma ExtensionWithoutDot(fileName: string)
    requires '.' !in fileName
    ensures AttachmentExtension(fileName) == AsciiLower(fileName)
  {
    SplitWithoutSeparator(fileName, '.');
  }

  /** The MIME type follows the lower-cased text after the last dot. */
  lemma MimeTypeOfExtension(stem: string, ext: string)
    requires '.' !in ext
    ensures MimeType(stem + "." + ext) == "image/png" <==> AsciiLower(ext) == "png"
    ensures MimeType(stem + "." + ext) == "image/webp" <==> AsciiLower(ext) == "webp"
    ensures MimeType(stem + "." + ext) == "image/jpeg" <==> AsciiLower(ext) != "png" && AsciiLower(ext) != "webp"
  {
    ExtensionAfterLastDot(stem, ext);
  }

  /** Upper-case extensions are recognised. */
  lemma UpperCasePngIsPng(stem: string)
    ensures MimeType(stem + ".PNG") == "image/png"
  {
    assert stem + ".PNG" == stem + "." + "PNG";
    MimeTypeOfExtension(stem, "PNG");
    assert AsciiLower("PNG") == "png";
  }

  /** A name without a dot is compared as a whole, so a file called `png` is sent as PNG. */
  lemma BarePngNameIsPng()
    ensures MimeType("png") == "image/png"
  {
    ExtensionWithoutDot("png");
    assert AsciiLower("png") == "png";
  }

  // ---------------------------------------------------------------------------------------
  // Request encoding.

  /** One part of a `FormData` body: a text field, or a file given by URI, name and type. */
  datatype FormPart =
    | TextPart(name: string, value: string)
    | FilePart(name: string, uri: string, fileName: string, mimeType: string)

  /** `JSON.stringify` of an object, as its members in order, or a `FormData` with its parts. */
  datatype Body = JsonBody(members: seq<(string, string)>) | MultipartBody(parts: seq<FormPart>)

  /** A `fetch` call: path under the base URL, HTTP method, explicit `Content-Type` header, body. */
  datatype Request = Request(path: string, verb: string, contentType: Option<string>, body: Body)

  const EventsPath := "/events/"
  const FieldNames: seq<string> := ["title", "date", "time", "location", "description"]

  /** The draft's text value for one of the five field names. */
  function FieldValue(d: Draft, name: string): string
    requires name in FieldNames
  {
    if name == "title" then d.title
    else if name == "date" then d.date
    else if name == "time" then d.time
    else if name == "location" then d.location
    else d.description
  }

  /** The five text parts, appended in the order title, date, time, location, description. */
  function TextParts(d: Draft): seq<FormPart> {
    [TextPart("title", d.title), TextPart("date", d.date), TextPart("time", d.time),
     TextPart("location", d.location), TextPart("description", d.description)]
  }

  /** The `image` part: the picked URI with the derived file name and MIME type. */
  function ImagePart(img: PickedImage): (part: FormPart)
    ensures part.FilePart? && part.name == "image" && part.uri == img.uri
    ensures part.fileName != "" && '/' !in part.fileName
    ensures part.mimeType in {"image/png", "image/webp", "image/jpeg"}
  {
    var fileName := AttachmentName(img.uri);
    FilePart("image", img.uri, fileName, MimeType(fileName))
  }

  /** The body sent for a draft: JSON without an image, multipart with one. */
  function Encode(d: Draft): (req: Request)
    ensures req.path == EventsPath && req.verb == "POST"
    ensures req.body.JsonBody? <==> d.image.None?
    ensures req.contentType.Some? <==> d.image.None?
    ensures req.contentType.Some? ==> req.contentType.value == "application/json"
  {
    match d.image
    case None =>
      Request(EventsPath, "POST", Some("application/json"),
        JsonBody([("title", d.title), ("date", d.date), ("time", d.time),
                  ("location", d.location), ("description", d.description)]))
    case Some(img) =>
      Request(EventsPath, "POST", None, MultipartBody(TextParts(d) + [ImagePart(img)]))
  }

  /** The names a body carries, in order. */
  function PartNames(b: Body): seq<string> {
    match b
    case JsonBody(members) => seq(|members|, i requires 0 <= i < |members| => members[i].0)
    case MultipartBody(parts) => seq(|parts|, i requires 0 <= i < |parts| => parts[i].name)
  }

  /** The first text value a body carries under `name`. The bodies built here carry each name
      once, so it is also the only one. */
  function TextField(b: Body, name: string): Option<string>
    decreases match b case JsonBody(m) => |m| case MultipartBody(p) => |p|
  {
    match b
    case JsonBody(members) =>
      if |members| == 0 then None
      else if members[0].0 == name then Some(members[0].1)
      else TextField(JsonBody(members[1..]), name)
    case MultipartBody(parts) =>
      if |parts| == 0 then None
      else if parts[0].TextPart? && parts[0].name == name then Some(parts[0].value)
      else TextField(MultipartBody(parts[1..]), name)
  }

  /** The file part of a body, if it has one. */
  function FileField(b: Body): Option<FormPart>
    decreases match b case JsonBody(m) => |m| case MultipartBody(p) => |p|
  {
    match b
    case JsonBody(_) => None
    case MultipartBody(parts) =>
      if |parts| == 0 then None
      else if parts[0].FilePart? then Some(parts[0])
      else FileField(MultipartBody(parts[1..]))
  }

  /** Looking a name up in the encoded members finds the value at the first position that
      carries it. */
  lemma {:induction false} JsonMemberAt(members: seq<(string, string)>, k: nat, name: string)
    requires k < |members| && members[k].0 == name
    requires forall j | 0 <= j < k :: members[j].0 != name
    ensures TextField(JsonBody(members), name) == Some(members[k].1)
  {
    if k > 0 {
      JsonMemberAt(members[1..], k - 1, name);
    }
  }

  /** Looking a name up in the encoded parts finds the value at the first position that
      carries it. */
  lemma {:induction false} TextPartAt(parts: seq<FormPart>, k: nat, name: string)
    requires k < |parts| && parts[k].TextPart? && parts[k].name == name
    requires forall j | 0 <= j < k :: parts[j].name != name
    ensures TextField(MultipartBody(parts), name) == Some(parts[k].value)
  {
    if k > 0 {
      TextPartAt(parts[1..], k - 1, name);
    }
  }

  /** The file part found is the first one. */
  lemma {:induction false} FilePartAt(parts: seq<FormPart>, k: nat)
    requires k < |parts| && parts[k].FilePart?
    requires forall j | 0 <= j < k :: parts[j].TextPart?
    ensures FileField(MultipartBody(parts)) == Some(parts[k])
  {
    if k > 0 {
      FilePartAt(parts[1..], k - 1);
    }
  }

  /** Without an image the body is JSON with exactly the five fields, in order, each holding
      the draft's value, and no file. */
  lemma EncodeWithoutImage(d: Draft)
    requires d.image.None?
    ensures var req := Encode(d);
      && req.path == EventsPath && req.verb == "POST"
      && req.contentType == Some("application/json")
      && req.body.JsonBody?
      && PartNames(req.body) == FieldNames
      && (forall name | name in FieldNames :: TextField(req.body, name) == Some(FieldValue(d, name)))
      && FileField(req.body) == None
  {
    var m := Encode(d).body.members;
    assert PartNames(Encode(d).body) == FieldNames;
    forall name | name in FieldNames
      ensures TextField(JsonBody(m), name) == Some(FieldValue(d, name))
    {
      var k :| 0 <= k < 5 && FieldNames[k] == name;
      JsonMemberAt(m, k, name);
    }
  }

  /** With an image the body is multipart: the same five text fields, in order, each holding
      the draft's value, followed by exactly one `image` part, and no `Content-Type` header of
      the client's own (the boundary is left to `fetch`). */
  lemma EncodeWithImage(d: Draft)
    requires d.image.Some?
    ensures var req := Encode(d);
      && req.path == EventsPath && req.verb == "POST"
      && req.contentType == None
      && req.body.MultipartBody?
      && PartNames(req.body) == FieldNames + ["image"]
      && (forall name | name in FieldNames :: TextField(req.body, name) == Some(FieldValue(d, name)))
      && FileField(req.body) == Some(ImagePart(d.image.value))
  {
    var f := ImagePart(d.image.value);
    assert Encode(d).body == MultipartBody(TextParts(d) + [f]);
    TextPartsThenFile(d, f);
  }

  /** The five text parts followed by one file part read back as the draft's values and that
      file. */
  lemma TextPartsThenFile(d: Draft, f: FormPart)
    requires f.FilePart? && f.name == "image"
    ensures var b := MultipartBody(TextParts(d) + [f]);
      && PartNames(b) == FieldNames + ["image"]
      && (forall name | name in FieldNames :: TextField(b, name) == Some(FieldValue(d, name)))
      && FileField(b) == Some(f)
  {
    var p := TextParts(d) + [f];
    assert p[5] == f;
    assert PartNames(MultipartBody(p)) == FieldNames + ["image"];
    TextPartAt(p, 0, "title");
    TextPartAt(p, 1, "date");
    TextPartAt(p, 2, "time");
    TextPartAt(p, 3, "location");
    TextPartAt(p, 4, "description");
    FilePartAt(p, 5);
  }

  /** The browser's `FormData`, filled by successive `append` calls. */
  class FormData {
    var parts: seq<FormPart>

    constructor ()
      ensures parts == []
    {
      parts := [];
    }

    method Append(part: FormPart)
      modifies this
      ensures parts == old(parts) + [part]
    {
      parts := parts + [part];
    }
  }

  /** The `FormData` that `handleCreate` builds: five text appends, then the image. */
  method BuildFormData(d: Draft, img: PickedImage) returns (fd: FormData)
    ensures fresh(fd)
    ensures fd.parts == TextParts(d) + [ImagePart(img)]
  {
    fd := new FormData();
    fd.Append(TextPart("title", d.title));
    fd.Append(TextPart("date", d.date));
    fd.Append(TextPart("time", d.time));
    fd.Append(TextPart("location", d.location));
    fd.Append(TextPart("description", d.description));
    var fileName := AttachmentName(img.uri);
    var mime := MimeType(fileName);
    fd.Append(FilePart("image", img.uri, fileName, mime));
  }

  // ---------------------------------------------------------------------------------------
  // Pressing CREATE and handling the response.

  /** What pressing CREATE does before any response: nothing (the button is disabled while
      loading), a validation alert, or a request sent. */
  datatype CreateStart = Disabled | Invalid(message: string) | Sent(request: Request)

  function StartCreate(loading: bool, d: Draft): (r: CreateStart)
    ensures loading <==> r.Disabled?
    ensures r.Invalid? <==> !loading && ValidationFailure(d).Some?
    ensures r.Invalid? ==> r.message == ValidationFailure(d).value
    ensures r.Sent? ==> r.request == Encode(d)
  {
    if loading then Disabled
    else match ValidationFailure(d)
      case Some(m) => Invalid(m)
      case None => Sent(Encode(d))
  }

  /** An empty or whitespace-only title never gets a request built. */
  lemma BlankTitleSendsNothing(loading: bool, d: Draft)
    requires AllWhitespace(d.title)
    ensures !StartCreate(loading, d).Sent?
  {
  }

  /** The text an error alert shows: a value as it is, or `JSON.stringify` of a value. */
  datatype AlertText = Shown(value: Json) | Stringified(value: Json)

  /** The navigation parameters for the Home tab: `{ newEvent: created, refresh: true }`. */
  datatype HomeParams = HomeParams(newEvent: Json, refresh: bool)

  datatype CreateEffect =
    | Created(params: HomeParams)   // 'Success' alert, then navigation to Home
    | Failed(message: AlertText)    // 'Error' alert

  const CreateFailedDefault := "Could not create event."
  const ServerUnreachable := "Server not reachable."

  /** What a response, or a thrown error, leads to. */
  function CreateEffectOf(outcome: FetchOutcome): (e: CreateEffect)
    ensures e.Created? <==> outcome.Responded? && outcome.ok
    ensures e.Created? ==> e.params.refresh
    ensures e.Created? ==>
      e.params.newEvent == (if outcome.body.Parsed? then outcome.body.value else JNull)
    ensures outcome.Responded? && !outcome.ok && outcome.body.Parsed? ==>
      var data := outcome.body.value;
      var detail := Member(Some(data), "detail");
      e == Failed(if Truthy(detail) then Shown(detail.value) else Stringified(data))
    ensures outcome == Responded(false, Unparseable) ==> e == Failed(Shown(JStr(CreateFailedDefault)))
    ensures outcome.Threw? ==>
      e == Failed(if Truthy(outcome.message) then Shown(outcome.message.value)
                  else Shown(JStr(ServerUnreachable)))
  {
    match outcome
    case Responded(true, body) =>
      Created(HomeParams(if body.Parsed? then body.value else JNull, true))
    case Responded(false, Parsed(data)) =>
      var detail := Member(Some(data), "detail");
      Failed(if Truthy(detail) then Shown(detail.value) else Stringified(data))
    case Responded(false, Unparseable) =>
      Failed(Shown(JStr(CreateFailedDefault)))
    case Threw(message) =>
      Failed(if Truthy(message) then Shown(message.value) else Shown(JStr(ServerUnreachable)))
  }

  /** The screen's state: the five text inputs, the picked image and `loading`. */
  class CreateEventForm {
    var title: string
    var date: string
    var time: string
    var location: string
    var description: string
    var image: Option<PickedImage>
    var loading: bool

    function Current(): Draft
      reads this
    {
      Draft(title, date, time, location, description, image)
    }

    constructor ()
      ensures Current() == Draft("", "", "", "", "", None) && !loading
    {
      title, date, time, location, description := "", "", "", "", "";
      image := None;
      loading := false;
    }

    /** `handleCreate` up to the `fetch`: the checks, `setLoading(true)`, the request. A
        failed check leaves `loading` as it was; the form itself never changes. */
    method PressCreate() returns (start: CreateStart)
      modifies this`loading
      ensures start == StartCreate(old(loading), Current())
      ensures loading == (old(loading) || start.Sent?)
    {
      if loading {
        return Disabled;
      }
      var d := Current();
      var failure := ValidationFailure(d);
      if failure.Some? {
        return Invalid(failure.value);
      }
      loading := true;
      match image {
        case None =>
          start := Sent(Encode(d));
        case Some(img) =>
          var fd := BuildFormData(d, img);
          start := Sent(Request(EventsPath, "POST", None, MultipartBody(fd.parts)));
      }
    }

    /** The rest of `handleCreate`: the outcome is reported and `loading` ends false in every
        case. The draft is kept. */
    method Complete(outcome: FetchOutcome) returns (effect: CreateEffect)
      modifies this`loading
      ensures !loading
      ensures effect == CreateEffectOf(outcome)
    {
      effect := CreateEffectOf(outcome);
      loading := false;
    }
  }
}
