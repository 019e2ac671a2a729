/**
 * The `/extract-data` endpoint (`extract_data` in app.py): request checks,
 * the ladder of checks on the document-processing reply, the entity
 * unescaping of the extracted JSON text and the assembly of the final body
 * with the ingestion status. The upstream reply, the Data Cloud token
 * exchange and the ingestion collaborators are parameters.
 */
module Extraction {
  import opened Wrappers
  import opened JsonValues
  import opened Text
  import opened DataCloud

  // ---------------------------------------------------------------------------
  // Inputs and replies

  /** The multipart upload: no `file` part at all, or a part with its filename. */
  datatype Upload = NoFile | File(filename: string)

  /** What the endpoint was asked: session state, upload and configured schema. */
  datatype Request = Request(authenticated: bool, upload: Upload, schema: Json)

  /** The document-processing call: it raised, or it answered with a status and body text. */
  datatype Upstream = Unreachable | Answered(status: nat, text: string)

  /** The endpoint's answers. */
  datatype Reply =
    | Refused(status: nat, error: string)                 // {'error': ...}, status
    | Failed(status: nat, error: string, details: Json)   // {'error': ..., 'details': ...}, status
    | Unprocessable(rawResponse: string)                  // KeyError/IndexError/JSONDecodeError: 500 with the raw body
    | Crashed                                             // any other exception: the outer 500 handler
    | Extracted(body: Json)                               // the extracted JSON, 200

  /** The HTTP status each answer is sent with. */
  function HttpStatus(r: Reply): nat
  {
    match r
    case Refused(status, _) => status
    case Failed(status, _, _) => status
    case Unprocessable(_) => 500
    case Crashed => 500
    case Extracted(_) => 200
  }

  const AuthRequired := "Authentication required. Please authenticate with Salesforce first."
  const NoFileUploaded := "No file uploaded"
  const NoFileSelected := "No file selected"
  const InvalidFileType := "Invalid file type. Allowed types are: PDF and images (PNG, JPG, JPEG, TIFF, BMP)"
  const NoSchema := "No schema configured. Please configure a schema in the Configuration page."
  const EmptyResponse := "Empty response from server"
  const NoData := "No data in response"
  const NoExtractedData := "No extracted data in response"
  const ServiceAuthError := "Authentication error with the OpenAI service. Please check your API credentials."
  const ServiceError := "Service error"
  const IngestionStatusKey := "_ingestion_status"

  // ---------------------------------------------------------------------------
  // allowed_file

  const AllowedExtensions: set<string> := {"pdf", "png", "jpg", "jpeg", "tiff", "bmp"}

  /** Position of the last '.' in `s`, where `rsplit('.', 1)` splits. */
  function LastDot(s: string): (r: Option<nat>)
    ensures r.Some? ==> r.value < |s| && s[r.value] == '.'
    ensures r.Some? ==> forall j :: r.value < j < |s| ==> s[j] != '.'
    ensures r.None? <==> '.' !in s
  {
    if s == [] then None
    else if s[|s| - 1] == '.' then Some(|s| - 1)
    else LastDot(s[..|s| - 1])
  }

  /** `'.' in filename and filename.rsplit('.', 1)[1].lower() in ALLOWED_EXTENSIONS` */
  predicate AllowedFile(filename: string)
  {
    match LastDot(filename)
    case None => false
    case Some(i) => AsciiLower(filename[i + 1..]) in AllowedExtensions
  }

  /** `filename` ends in '.' followed by the extension `e`, in any letter case. */
  predicate EndsWithExtension(filename: string, e: string)
  {
    |filename| > |e| && filename[|filename| - |e| - 1] == '.'
    && AsciiLower(filename[|filename| - |e|..]) == e
  }

  /** A file is accepted exactly when its name ends in '.' and one of the six extensions, in any case. */
  lemma AllowedFileSuffix(filename: string)
    ensures AllowedFile(filename) <==> exists e :: e in AllowedExtensions && EndsWithExtension(filename, e)
  {
    if AllowedFile(filename) {
      var i := LastDot(filename).value;
      var e := AsciiLower(filename[i + 1..]);
      assert filename[|filename| - |e|..] == filename[i + 1..];
      assert EndsWithExtension(filename, e);
    }
    if e :| e in AllowedExtensions && EndsWithExtension(filename, e) {
      SuffixAllowed(filename, e);
    }
  }

  /** No allowed extension holds a '.'. */
  lemma ExtensionsDotless(e: string)
    requires e in AllowedExtensions
    ensures '.' !in e
  {
  }

  lemma SuffixAllowed(filename: string, e: string)
    requires e in AllowedExtensions && EndsWithExtension(filename, e)
    ensures AllowedFile(filename)
  {
    ExtensionsDotless(e);
    SplitsBeforeExtension(filename, e);
  }

  /** A name ending in '.' and a dotless extension splits at that '.'. */
  lemma SplitsBeforeExtension(filename: string, e: string)
    requires '.' !in e && EndsWithExtension(filename, e)
    ensures LastDot(filename) == Some(|filename| - |e| - 1)
  {
    var p := |filename| - |e| - 1;
    DotlessLowered(filename[p + 1..], e);
    forall j | p < j < |filename|
      ensures filename[j] != '.'
    {
      assert filename[p + 1..][j - p - 1] == filename[j];
    }
    LastDotAt(filename, p);
  }

  /** Lower-casing leaves a '.' in place and makes no new one. */
  lemma DotlessLowered(ext: string, e: string)
    requires AsciiLower(ext) == e && '.' !in e
    ensures '.' !in ext
  {
    forall i | 0 <= i < |ext| ensures ext[i] != '.' {
      assert e[i] != '.';
    }
  }

  /** A '.' with none after it is where the name splits. */
  lemma LastDotAt(s: string, p: nat)
    requires p < |s| && s[p] == '.'
    requires forall j :: p < j < |s| ==> s[j] != '.'
    ensures LastDot(s) == Some(p)
  {
    if p < |s| - 1 {
      assert s[..|s| - 1][p] == '.';
      LastDotAt(s[..|s| - 1], p);
    }
  }

  /** Upper-case extensions pass, and only the part after the last '.' counts. */
  lemma AcceptedNames()
    ensures AllowedFile("scan.PDF") && AllowedFile("photo.final.jpeg")
  {
    assert "scan.PDF"[5..] == "PDF";
    assert AsciiLower("PDF") == "pdf";
    SuffixAllowed("scan.PDF", "pdf");
    assert "photo.final.jpeg"[12..] == "jpeg";
    assert AsciiLower("jpeg") == "jpeg";
    SuffixAllowed("photo.final.jpeg", "jpeg");
  }

  /** A disallowed last extension, a name without a dot and a trailing dot are refused. */
  lemma RefusedNames()
    ensures !AllowedFile("report.pdf.docx") && !AllowedFile("pdf") && !AllowedFile("file.")
  {
    LastDotAt("report.pdf.docx", 10);
    assert "report.pdf.docx"[11..] == "docx";
    assert AsciiLower("docx") == "docx";
    assert "pdf"[0] != '.' && "pdf"[1] != '.' && "pdf"[2] != '.';
    LastDotAt("file.", 4);
    assert "file."[5..] == "";
  }

  // ---------------------------------------------------------------------------
  // Request checks

  /** The checks made before anything is read or sent, in the endpoint's order. */
  function Validate(req: Request): (r: Option<Reply>)
    ensures r.Some? <==> !req.authenticated || req.upload.NoFile? || req.upload.filename == []
                         || !AllowedFile(req.upload.filename) || !Truthy(req.schema)
    ensures r.Some? ==> r.value.Refused? && r.value.status == (if req.authenticated then 400 else 401)
  {
    if !req.authenticated then Some(Refused(401, AuthRequired))
    else match req.upload
      case NoFile => Some(Refused(400, NoFileUploaded))
      case File(name) =>
        if name == [] then Some(Refused(400, NoFileSelected))
        else if !AllowedFile(name) then Some(Refused(400, InvalidFileType))
        else if !Truthy(req.schema) then Some(Refused(400, NoSchema))
        else None
  }

  // ---------------------------------------------------------------------------
  // The reply ladder

  /** Python's `needle in container` on a parsed value; None where it raises TypeError. */
  function PyIn(needle: string, container: Json): Option<bool>
  {
    match container
    case Obj(ms) => Some(HasKey(ms, needle))
    case Arr(es) => Some(Str(needle) in es)
    case Str(s) => Some(Occurs(needle, s))
    case _ => None
  }

  /** The entity rewrite applied to the extracted JSON text before it is parsed. */
  function Unescape(s: string): string
  {
    ReplaceAll(ReplaceAll(s, "&quot;", '"'), "&#92;", '\\')
  }

  /** Neither entity is left in the rewritten text, and text without '&' is left alone. */
  lemma UnescapeRemovesEntities(s: string)
    ensures !Occurs("&quot;", Unescape(s)) && !Occurs("&#92;", Unescape(s))
    ensures '&' !in s ==> Unescape(s) == s
  {
    var once := ReplaceAll(s, "&quot;", '"');
    ReplaceAllRemoves(s, "&quot;", '"');
    ReplaceAllKeepsOut(once, "&#92;", '\\', "&quot;");
    ReplaceAllRemoves(once, "&#92;", '\\');
    if '&' !in s {
      ReplaceAllUnchanged(s, "&quot;", '"');
      ReplaceAllUnchanged(s, "&#92;", '\\');
    }
  }

  /** The entity-escaped extraction text of a one-member object becomes JSON text. */
  lemma UnescapeExample()
    ensures Unescape("{&quot;a&quot;:1}") == "{\"a\":1}"
  {
    QuotExample();
    ReplaceAllUnchanged("{\"a\":1}", "&#92;", '\\');
  }

  /** The first replacement on the example, position by position. */
  lemma QuotExample()
    ensures ReplaceAll("{&quot;a&quot;:1}", "&quot;", '"') == "{\"a\":1}"
  {
    var pat := "&quot;";
    var t3, t2, t1, s := "&quot;:1}", "a&quot;:1}", "&quot;a&quot;:1}", "{&quot;a&quot;:1}";
    QuotTail();
    assert t2[1..] == t3 && t2[0] != pat[0];
    assert ReplaceAll(t2, pat, '"') == "a\":1}";
    assert t1[..6] == pat && t1[6..] == t2;
    assert ReplaceAll(t1, pat, '"') == "\"a\":1}";
    assert s[1..] == t1 && s[0] != pat[0];
  }

  lemma QuotTail()
    ensures ReplaceAll("&quot;:1}", "&quot;", '"') == "\":1}"
  {
    var t3 := "&quot;:1}";
    ReplaceAllUnchanged(":1}", "&quot;", '"');
    assert t3[..6] == "&quot;" && t3[6..] == ":1}";
  }

  /** The whole endpoint. */
  function ExtractData(req: Request, upstream: Upstream, dataCloud: bool, fx: Effects): Reply
  {
    match Validate(req)
    case Some(refusal) => refusal
    case None =>
      match upstream
      case Unreachable => Crashed
      case Answered(status, text) =>
        if status !in {200, 201} then
          Failed(status, "API request failed with status " + NatToString(status), Str(text))
        else match fx.parse(text)
          case None => Unprocessable(text)
          case Some(resp) => Interpret(resp, text, dataCloud, fx)
  }

  /** The checks on the parsed reply, down to `json_response['data'][0]`. */
  function Interpret(resp: Json, text: string, dataCloud: bool, fx: Effects): Reply
  {
    if !Truthy(resp) then Refused(200, EmptyResponse)
    else match PyIn("data", resp)
      case None => Crashed
      case Some(false) => Refused(200, NoData)
      case Some(true) =>
        if !resp.Obj? then Crashed
        else
          var d := Lookup(resp.members, "data").value;
          if !Truthy(d) then Refused(200, NoData)
          else match d
            case Arr(es) => InterpretItem(es[0], text, dataCloud, fx)
            case Obj(_) => Unprocessable(text)
            case _ => Crashed
  }

  /** The checks on the first result: its `error`, then its `data` text. */
  function InterpretItem(first: Json, text: string, dataCloud: bool, fx: Effects): Reply
  {
    if !first.Obj? then Crashed
    else
      var err := Lookup(first.members, "error");
      if err.Some? && Truthy(err.value) then
        match PyIn("403", err.value)
        case None => Crashed
        case Some(true) => Failed(403, ServiceAuthError, err.value)
        case Some(false) => Failed(500, ServiceError, err.value)
      else
        var nested := Lookup(first.members, "data");
        if nested.None? || !Truthy(nested.value) then Refused(200, NoExtractedData)
        else if !nested.value.Str? then Crashed
        else match fx.parse(Unescape(nested.value.s))
          case None => Unprocessable(text)
          case Some(v) => Assemble(v, dataCloud, fx)
  }

  /** `nested_json.copy()` with the ingestion status added when there is one. */
  function Assemble(v: Json, dataCloud: bool, fx: Effects): Reply
  {
    var ingestion := if dataCloud then Ingestion(v, fx) else None;
    match v
    case Obj(ms) =>
      Extracted(Obj(if ingestion.Some? then Assign(ms, IngestionStatusKey, StatusJson(ingestion.value, fx.describe)) else ms))
    case Arr(_) => if ingestion.Some? then Crashed else Extracted(v)
    case _ => Crashed
  }

  // ---------------------------------------------------------------------------
  // Properties of the endpoint

  /**
   * A request that fails a check is answered from the request alone: the
   * upstream reply, the Data Cloud token and the ingestion collaborators
   * play no part, and the status is 401 or 400.
   */
  lemma ChecksComeFirst(req: Request, u1: Upstream, u2: Upstream, dc1: bool, dc2: bool, fx1: Effects, fx2: Effects)
    ensures Validate(req).Some? ==>
      && ExtractData(req, u1, dc1, fx1) == ExtractData(req, u2, dc2, fx2)
      && HttpStatus(ExtractData(req, u1, dc1, fx1)) in {400, 401}
  {
  }

  /** A status other than 200 or 201 is passed on to the caller with the upstream body as details. */
  lemma UpstreamFailurePassedOn(req: Request, status: nat, text: string, dataCloud: bool, fx: Effects)
    ensures Validate(req).None? && status !in {200, 201} ==>
      var r := ExtractData(req, Answered(status, text), dataCloud, fx);
      r.Failed? && HttpStatus(r) == status && r.details == Str(text)
      && r.error == "API request failed with status " + NatToString(status)
  {
  }

  /** `json_response['data'][0]` is `first`. */
  predicate FirstResult(resp: Json, first: Json)
  {
    && resp.Obj?
    && Lookup(resp.members, "data").Some?
    && Lookup(resp.members, "data").value.Arr?
    && Lookup(resp.members, "data").value.elems != []
    && Lookup(resp.members, "data").value.elems[0] == first
  }

  /** A reply with a first result goes on to that result's checks. */
  lemma ReachesFirstResult(resp: Json, text: string, dataCloud: bool, fx: Effects, first: Json)
    requires FirstResult(resp, first)
    ensures Interpret(resp, text, dataCloud, fx) == InterpretItem(first, text, dataCloud, fx)
  {
    assert HasKey(resp.members, "data");
    assert Truthy(resp);
  }

  /**
   * An `error` text in the first result becomes a 403 when it mentions 403
   * and a 500 otherwise, with the text as details.
   */
  lemma ServiceErrorClassified(first: Json, m: string, text: string, dataCloud: bool, fx: Effects)
    requires first.Obj? && Lookup(first.members, "error") == Some(Str(m)) && m != ""
    ensures InterpretItem(first, text, dataCloud, fx)
      == if Occurs("403", m) then Failed(403, ServiceAuthError, Str(m)) else Failed(500, ServiceError, Str(m))
  {
  }

  /**
   * The success path: the first result's `data` text, unescaped and parsed to
   * a dict, is returned as it is (still tagged: nothing is unwrapped here).
   * Data Cloud adds the `_ingestion_status` key when the ingestion produced a
   * status, and changes nothing else.
   */
  lemma ExtractedDocument(first: Json, s: string, vs: seq<Member>, text: string, dataCloud: bool, fx: Effects)
    requires first.Obj? && Lookup(first.members, "data") == Some(Str(s)) && s != ""
    requires Lookup(first.members, "error").None? || !Truthy(Lookup(first.members, "error").value)
    requires fx.parse(Unescape(s)) == Some(Obj(vs))
    ensures var r := InterpretItem(first, text, dataCloud, fx);
      var ingestion := if dataCloud then Ingestion(Obj(vs), fx) else None;
      && r.Extracted? && r.body.Obj?
      && (ingestion.None? ==> r.body.members == vs)
      && (ingestion.Some? ==> Lookup(r.body.members, IngestionStatusKey) == Some(StatusJson(ingestion.value, fx.describe)))
      && (forall k :: k != IngestionStatusKey ==> Lookup(r.body.members, k) == Lookup(vs, k))
      && (DistinctKeys(vs) ==> DistinctKeys(r.body.members))
  {
  }

  /** Without Data Cloud a parsed list is returned as it is; with it, adding the status to a list raises. */
  lemma ExtractedList(xs: seq<Json>, fx: Effects)
    ensures Assemble(Arr(xs), false, fx) == Extracted(Arr(xs))
    ensures Assemble(Arr(xs), true, fx) == Crashed
  {
  }

  /** A parsed reply is "empty" exactly when it is falsy; nothing further down answers with that message. */
  lemma EmptyResponseIff(resp: Json, text: string, dataCloud: bool, fx: Effects)
    ensures Interpret(resp, text, dataCloud, fx) == Refused(200, EmptyResponse) <==> !Truthy(resp)
  {
    if Truthy(resp) && PyIn("data", resp) == Some(true) && resp.Obj? {
      var d := Lookup(resp.members, "data").value;
      if Truthy(d) && d.Arr? {
        ItemNeverEmpty(d.elems[0], text, dataCloud, fx);
      }
    }
  }

  /**
   * For a non-empty dict reply, "No data in response" is the answer exactly
   * when `data` is missing or falsy.
   */
  lemma NoDataIff(ms: seq<Member>, text: string, dataCloud: bool, fx: Effects)
    ensures ms != [] ==>
      (Interpret(Obj(ms), text, dataCloud, fx) == Refused(200, NoData)
       <==> Lookup(ms, "data").None? || !Truthy(Lookup(ms, "data").value))
  {
    if ms != [] && Lookup(ms, "data").Some? && Truthy(Lookup(ms, "data").value) {
      var d := Lookup(ms, "data").value;
      if d.Arr? {
        ItemNeverEmpty(d.elems[0], text, dataCloud, fx);
        assert |NoData| != |NoExtractedData|;
      }
    }
  }

  /**
   * A truthy reply that is not a dict: `'data' in` it is an element test on a
   * list and a substring test on a string. Without `data` it is refused with
   * "No data in response"; with it, `json_response['data']` raises TypeError.
   * On a number or `true`, the `in` test itself raises.
   */
  lemma NonDictReply(resp: Json, text: string, dataCloud: bool, fx: Effects)
    ensures Truthy(resp) && resp.Arr? ==>
      Interpret(resp, text, dataCloud, fx) == if Str("data") in resp.elems then Crashed else Refused(200, NoData)
    ensures Truthy(resp) && resp.Str? ==>
      Interpret(resp, text, dataCloud, fx) == if Occurs("data", resp.s) then Crashed else Refused(200, NoData)
    ensures Truthy(resp) && (resp.Num? || resp.Bool?) ==> Interpret(resp, text, dataCloud, fx) == Crashed
  {
  }

  /** The first result's checks refuse only with the missing-extraction message. */
  lemma ItemNeverEmpty(first: Json, text: string, dataCloud: bool, fx: Effects)
    ensures InterpretItem(first, text, dataCloud, fx).Refused? ==>
      InterpretItem(first, text, dataCloud, fx).error == NoExtractedData
  {
  }
}
